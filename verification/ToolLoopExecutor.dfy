/** iterative_loop_run and tool_executor_run_workflow themselves: the loops and the flags they update in place, proved
    to end as ToolLoop says. */
module ToolLoopExecutor {
  import opened Wrappers
  import opened ToolBatch
  import opened ToolBatchExecutor
  import opened ToolLoop

  /** LoopWorkflowState. */
  class WorkflowState {
    var hasPatched: bool
    var hasTestedSincePatch: bool
    var lastTestFailed: bool
    var hasUsedTools: bool
    var nudgeCount: nat

    constructor ()
      ensures State() == NO_FLAGS
    {
      hasPatched, hasTestedSincePatch, lastTestFailed, hasUsedTools, nudgeCount := false, false, false, false, 0;
    }

    ghost function State(): Workflow
      reads this
    {
      Workflow(hasPatched, hasTestedSincePatch, lastTestFailed, hasUsedTools, nudgeCount)
    }

    method Update(m: Mark)
      modifies this
      ensures State() == Note(old(State()), m)
    {
      match m
      case Patched => hasPatched, hasTestedSincePatch, lastTestFailed := true, false, false;
      case Tested(failed) => hasTestedSincePatch, lastTestFailed := true, failed;
      case Other =>
    }
  }

  /** The inner search for the result of call i. */
  method FindResult(results: array<ToolResult>, indices: array<int>, count: nat, i: int) returns (text: Option<string>)
    requires count <= results.Length && count <= indices.Length
    ensures text == ResultText(Slots(results[..], indices[..], count), i, 0)
  {
    ghost var slots := Slots(results[..], indices[..], count);
    for j := 0 to count
      invariant ResultText(slots, i, 0) == ResultText(slots, i, j)
    {
      if indices[j] == i && results[j].text.Some? {
        return results[j].text;
      }
    }
    text := None;
  }

  /** The pass over a finished batch that updates the flags. */
  method UpdateFlags(calls: seq<ToolCall>, results: array<ToolResult>, indices: array<int>, count: nat,
                     wf: WorkflowState)
    requires count <= results.Length && count <= indices.Length
    modifies wf
    ensures wf.State() == NoteAll(old(wf.State()).(usedTools := true),
                                  MarksFrom(calls, Slots(results[..], indices[..], count), 0))
  {
    wf.hasUsedTools := true;
    ghost var slots := Slots(results[..], indices[..], count);
    ghost var start := wf.State();
    for i := 0 to |calls|
      invariant NoteAll(wf.State(), MarksFrom(calls, slots, i)) == NoteAll(start, MarksFrom(calls, slots, 0))
    {
      var name := calls[i].name;
      if IsPatchTool(name) || name == "shell" {
        var text := FindResult(results, indices, count, i);
        if IsPatchTool(name) {
          if text.Some? && PatchSucceeded(text.value) {
            wf.Update(Patched);
          }
        } else {
          wf.Update(Tested(text.Some? && ReportsFailure(text.value)));
        }
      }
      assert MarksFrom(calls, slots, i)[0] == MarkOf(calls[i], slots, i);
      assert MarksFrom(calls, slots, i)[1..] == MarksFrom(calls, slots, i + 1);
    }
  }

  /** The batch of one iteration, on arrays of its own, and the flags it sets. The source leaves the index array
      uninitialised; only entries below the returned count are read. */
  method RunBatch(turn: Turn, calls: seq<ToolCall>, orch: Orchestration, wf: WorkflowState) returns (status: int)
    requires !orch.spawned
    modifies orch, wf
    ensures var e := EffectOf(turn, calls, old(orch.tracker));
            && status == e.status && orch.tracker == e.tracker
            && wf.State() == NoteAll(old(wf.State()).(usedTools := true), e.marks)
  {
    var results := new ToolResult[|calls|](_ => UNFILLED);
    var indices := new int[|calls|](_ => 0);
    assert results[..] == seq(|calls|, _ => UNFILLED);
    assert indices[..] == seq(|calls|, _ => 0);
    LoopBatchSized(turn, calls, orch.tracker);
    var count;
    count, status := Execute(turn.env, orch, calls, results, indices);
    UpdateFlags(calls, results, indices, count, wf);
  }

  /** Some call of the answer is new. */
  method HasNewCall(calls: seq<ToolCall>, orch: Orchestration) returns (found: bool)
    ensures found <==> !AllSeen(calls, orch.tracker)
  {
    var newCalls := 0;
    for i := 0 to |calls|
      invariant 0 <= newCalls
      invariant newCalls == 0 <==> forall k :: 0 <= k < i ==> Seen(orch.tracker, calls[k].id)
    {
      var dup := orch.IsDuplicate(calls[i].id);
      if !dup {
        newCalls := newCalls + 1;
      }
    }
    found := newCalls > 0;
  }

  ghost predicate Matches(s: Loop, orch: Orchestration, wf: WorkflowState, loopCount: nat, retries: nat)
    reads orch, wf
  {
    s.iterations == loopCount && s.retries == retries && s.tracker == orch.tracker && s.wf == wf.State()
  }

  /** What an iteration does with an answer. */
  method TakeAnswer(turn: Turn, calls: seq<ToolCall>, orch: Orchestration, wf: WorkflowState, ghost s: Loop)
    returns (exit: Option<Exit>, ghost t: Loop)
    requires !orch.spawned && s.tracker == orch.tracker && s.wf == wf.State()
    modifies orch, wf
    ensures t.iterations == s.iterations && t.retries == s.retries && t.tracker == orch.tracker && t.wf == wf.State()
    ensures AfterAnswer(s, calls, EffectOf(turn, calls, s.tracker))
            == if exit.Some? then Over(t, exit.value) else More(t)
  {
    exit, t := None, s;
    if calls == [] {
      if wf.nudgeCount < MAX_NUDGES
         && ((wf.hasUsedTools && !wf.hasPatched) || (wf.hasPatched && !wf.hasTestedSincePatch)
             || (wf.hasPatched && wf.lastTestFailed)) {
        wf.nudgeCount := wf.nudgeCount + 1;
        t := t.(wf := wf.State());
      } else {
        exit := Some(NoMoreCalls);
      }
      return;
    }
    var hasNew := HasNewCall(calls, orch);
    if !hasNew {
      exit := Some(AllDuplicates);
      return;
    }
    ghost var e := EffectOf(turn, calls, orch.tracker);
    var status := RunBatch(turn, calls, orch, wf);
    t := AfterBatch(t, e).loop;
    if status != 0 {
      exit := Some(BatchStopped(status));
    }
  }

  /** What an iteration does with a round trip that brings no answer. */
  method TakeFailure(reply: Reply, before: nat, ghost s: Loop) returns (retries: nat, exit: Option<Exit>, ghost t: Loop)
    requires !reply.Answer? && s.retries == before
    ensures t == s.(retries := retries)
    ensures AfterFailure(s, reply) == if exit.Some? then Over(t, exit.value) else More(t)
  {
    retries, exit := before, None;
    match reply {
      case NoRoom => exit := Some(OutOfContext);
      case TokenError => exit := Some(NoBudget);
      case NoAnswer =>
        retries := retries + 1;
        if retries > MAX_RETRIES {
          exit := Some(RetriesSpent);
        }
    }
    t := s.(retries := retries);
  }

  /** One pass of the while loop; an exit ends the run. */
  method RunIteration(turn: Turn, orch: Orchestration, wf: WorkflowState, before: nat, retriesBefore: nat,
                      ghost s: Loop)
    returns (loopCount: nat, retries: nat, exit: Option<Exit>, ghost t: Loop)
    requires Matches(s, orch, wf, before, retriesBefore)
    modifies orch, wf
    ensures Matches(t, orch, wf, loopCount, retries) && loopCount == before + 1
    ensures exit.None? ==> loopCount <= MAX_ITERATIONS
    ensures Iterate(s, turn) == if exit.Some? then Over(t, exit.value) else More(t)
  {
    loopCount, retries, exit := before + 1, retriesBefore, None;
    t := s.(iterations := loopCount);
    if loopCount > MAX_ITERATIONS {
      exit := Some(SafetyLimit);
      return;
    }
    orch.ResetBatch();
    if turn.reply.Answer? {
      IterateOnAnswer(s, turn);
      retries := 0;
      exit, t := TakeAnswer(turn, turn.reply.calls, orch, wf, t.(retries := 0));
    } else {
      IterateOnFailure(s, turn);
      retries, exit, t := TakeFailure(turn.reply, retries, t);
    }
  }

  lemma RunUnfolds(s: Loop, turns: nat -> Turn)
    ensures var step := Iterate(s, turns(s.iterations + 1));
            && (step.More? ==> RunFrom(s, turns) == RunFrom(step.loop, turns))
            && (step.Over? ==> RunFrom(s, turns) == step)
  {
  }

  lemma RunSteps(s: Loop, turns: nat -> Turn, t: Loop, exit: Option<Exit>)
    requires Iterate(s, turns(s.iterations + 1)) == if exit.Some? then Over(t, exit.value) else More(t)
    ensures RunFrom(s, turns) == if exit.Some? then Over(t, exit.value) else RunFrom(t, turns)
  {
    RunUnfolds(s, turns);
  }

  /** One pass of the loop, as a step of the whole run. */
  method StepRun(turns: nat -> Turn, orch: Orchestration, wf: WorkflowState, before: nat, retriesBefore: nat,
                 ghost s: Loop)
    returns (loopCount: nat, retries: nat, exit: Option<Exit>, ghost t: Loop)
    requires Matches(s, orch, wf, before, retriesBefore)
    modifies orch, wf
    ensures Matches(t, orch, wf, loopCount, retries) && loopCount == before + 1
    ensures exit.None? ==> loopCount <= MAX_ITERATIONS
    ensures RunFrom(s, turns) == if exit.Some? then Over(t, exit.value) else RunFrom(t, turns)
  {
    loopCount, retries, exit, t := RunIteration(turns(before + 1), orch, wf, before, retriesBefore, s);
    RunSteps(s, turns, t, exit);
  }

  /** iterative_loop_run, from a state of the machine that has made no iteration. */
  method RunLoop(turns: nat -> Turn, orch: Orchestration, wf: WorkflowState, ghost start: Loop)
    returns (rc: int, exit: Exit)
    requires Matches(start, orch, wf, 0, 0)
    modifies orch, wf
    ensures var end := RunFrom(start, turns);
            exit == end.exit && rc == Code(exit) && wf.State() == end.loop.wf && orch.tracker == end.loop.tracker
  {
    ghost var s, end := start, RunFrom(start, turns);
    var loopCount, retries := 0, 0;
    while true
      invariant Matches(s, orch, wf, loopCount, retries) && loopCount <= MAX_ITERATIONS
      invariant RunFrom(s, turns) == end
      decreases MAX_ITERATIONS - loopCount
    {
      var over;
      loopCount, retries, over, s := StepRun(turns, orch, wf, loopCount, retries, s);
      if over.Some? {
        return Code(over.value), over.value;
      }
    }
  }

  /** The seeding of the tracker with the ids of the initial batch. */
  method SeedTracker(calls: seq<ToolCall>, orch: Orchestration)
    modifies orch
    ensures orch.tracker == Seed(old(orch.tracker), calls)
  {
    ghost var start := orch.tracker;
    for i := 0 to |calls|
      invariant Seed(orch.tracker, calls[i..]) == Seed(start, calls)
    {
      assert calls[i..][1..] == calls[i + 1..];
      var _ := orch.MarkExecuted(calls[i].id);
    }
  }

  method InitialFlags(calls: seq<ToolCall>, wf: WorkflowState)
    requires wf.State() == NO_FLAGS
    modifies wf
    ensures wf.State() == Entering(calls).wf
  {
    wf.hasUsedTools := true;
    ghost var marks := InitialMarks(calls);
    for i := 0 to |calls|
      invariant NoteAll(wf.State(), marks[i..]) == NoteAll(NO_FLAGS.(usedTools := true), marks)
      invariant !wf.lastTestFailed
    {
      assert marks[i..][0] == InitialMark(calls[i]) && marks[i..][1..] == marks[i + 1..];
      if IsPatchTool(calls[i].name) {
        wf.hasPatched, wf.hasTestedSincePatch := true, false;
      } else if calls[i].name == "shell" {
        wf.hasTestedSincePatch := true;
      }
    }
  }

  /** tool_executor_run_workflow: the initial batch in direct mode, then the loop. */
  method RunWorkflow(env: Env, calls: seq<ToolCall>, turns: nat -> Turn) returns (rc: int)
    ensures rc == WorkflowCode(env, calls, turns)
  {
    if calls == [] {
      return -1;
    }
    var orch := new Orchestration();
    var results := new ToolResult[|calls|](_ => UNFILLED);
    assert results[..] == seq(|calls|, _ => UNFILLED);
    var count, status := Execute(env, orch, calls, results, null);
    if status != 0 {
      return -2;
    }
    DirectLeavesTracker(env, calls);
    SeedTracker(calls, orch);
    var wf := new WorkflowState();
    InitialFlags(calls, wf);
    var code, exit := RunLoop(turns, orch, wf, Entering(calls));
    if code == CONTEXT_FULL {
      return CONTEXT_FULL;
    }
    rc := 0;
  }

  /** Direct mode tracks no ids. */
  lemma DirectLeavesTracker(env: Env, calls: seq<ToolCall>)
    ensures InitialBatch(env, calls).tracker == []
  {
    ScreenFromTracksNothing(env, calls, 0, Screen(Fresh(|calls|, []), [], false, [], 0));
  }

  lemma {:induction false} ScreenFromTracksNothing(env: Env, calls: seq<ToolCall>, i: nat, s: Screen)
    requires i <= |calls| && (s.status == 0 ==> Fits(s.slots, false, |calls|, i))
    ensures ScreenFrom(env, calls, false, i, s).tracker == s.tracker
    decreases |calls| - i
  {
    if i < |calls| && s.status == 0 {
      ScreenOneFits(env, calls, false, i, s);
      ScreenFromTracksNothing(env, calls, i + 1, ScreenOne(env, calls, false, i, s));
    }
  }
}
