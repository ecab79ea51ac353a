/** The tool-calling loop (lib/agent/iterative_loop.c) and the workflow around it (lib/agent/tool_executor.c): what
    one iteration does, and what holds over whole workflows. */
module ToolLoop {
  import opened Wrappers
  import opened ToolBatch

  const MAX_ITERATIONS := 200
  const MAX_NUDGES := 3
  const MAX_RETRIES := 3
  const CONTEXT_FULL := -3

  // ----- Reading results -----

  /** strstr from position i on. */
  function Find(text: string, needle: string, i: nat): Option<nat>
    decreases |text| - i
  {
    if i + |needle| > |text| then None
    else if text[i..i + |needle|] == needle then Some(i)
    else Find(text, needle, i + 1)
  }

  function SkipSpaces(text: string, i: nat): nat
    decreases |text| - i
  {
    if i < |text| && text[i] == ' ' then SkipSpaces(text, i + 1) else i
  }

  predicate IsSpace(c: char) {
    c == ' ' || '\t' <= c <= '\r'
  }

  function SkipWhite(text: string, i: nat): nat
    decreases |text| - i
  {
    if i < |text| && IsSpace(text[i]) then SkipWhite(text, i + 1) else i
  }

  /** The digits from i on, up to the first other character, hold one that is not 0. */
  predicate DigitsNonZero(text: string, i: nat)
    decreases |text| - i
  {
    i < |text| && '0' <= text[i] <= '9' && (text[i] != '0' || DigitsNonZero(text, i + 1))
  }

  /** atoi(text + i) != 0. */
  predicate AtoiNonZero(text: string, i: nat) {
    var j := SkipWhite(text, i);
    DigitsNonZero(text, if j < |text| && (text[j] == '-' || text[j] == '+') then j + 1 else j)
  }

  const EXIT_CODE := "\"exit_code\":"

  /** A shell result that reports a non-zero exit code. */
  predicate ReportsFailure(text: string) {
    match Find(text, EXIT_CODE, 0)
    case None => false
    case Some(k) => AtoiNonZero(text, SkipSpaces(text, k + |EXIT_CODE|))
  }

  /** A patch result that does not report failure. */
  predicate PatchSucceeded(text: string) {
    Find(text, "\"success\": false", 0).None? && Find(text, "\"success\":false", 0).None?
  }

  /** The result text recorded for call i, if there is one: the first such slot from j on. */
  function ResultText(slots: Slots, i: int, j: nat): Option<string>
    requires slots.count <= |slots.results| && slots.count <= |slots.indices|
    decreases slots.count - j
  {
    if j >= slots.count then None
    else if slots.indices[j] == i && slots.results[j].text.Some? then slots.results[j].text
    else ResultText(slots, i, j + 1)
  }

  // ----- Workflow flags -----

  datatype Workflow = Workflow(patched: bool, tested: bool, lastFailed: bool, usedTools: bool, nudges: nat)

  /** What a call means for the flags. */
  datatype Mark = Patched | Tested(failed: bool) | Other

  predicate IsPatchTool(name: string) {
    name == "apply_patch" || name == "write_file"
  }

  function MarkOf(call: ToolCall, slots: Slots, i: int): Mark
    requires slots.count <= |slots.results| && slots.count <= |slots.indices|
  {
    var text := ResultText(slots, i, 0);
    if IsPatchTool(call.name) then
      if text.Some? && PatchSucceeded(text.value) then Patched else Other
    else if call.name == "shell" then Tested(text.Some? && ReportsFailure(text.value))
    else Other
  }

  function MarksFrom(calls: seq<ToolCall>, slots: Slots, i: nat): (marks: seq<Mark>)
    requires slots.count <= |slots.results| && slots.count <= |slots.indices|
    ensures i <= |calls| ==> |marks| == |calls| - i
    decreases |calls| - i
  {
    if i >= |calls| then [] else [MarkOf(calls[i], slots, i)] + MarksFrom(calls, slots, i + 1)
  }

  /** The flags of the initial batch look at names only: a patch counts whatever its result. */
  function InitialMark(call: ToolCall): Mark {
    if IsPatchTool(call.name) then Patched else if call.name == "shell" then Tested(false) else Other
  }

  function InitialMarks(calls: seq<ToolCall>): seq<Mark> {
    seq(|calls|, i requires 0 <= i < |calls| => InitialMark(calls[i]))
  }

  function Note(wf: Workflow, m: Mark): Workflow {
    match m
    case Patched => wf.(patched := true, tested := false, lastFailed := false)
    case Tested(failed) => wf.(tested := true, lastFailed := failed)
    case Other => wf
  }

  function NoteAll(wf: Workflow, marks: seq<Mark>): Workflow
    decreases |marks|
  {
    if marks == [] then wf else NoteAll(Note(wf, marks[0]), marks[1..])
  }

  /** The last mark that is a successful patch or a test. */
  function LastMark(marks: seq<Mark>): Mark
    decreases |marks|
  {
    if marks == [] then Other
    else if marks[|marks| - 1] != Other then marks[|marks| - 1]
    else LastMark(marks[..|marks| - 1])
  }

  /** The flags read off a whole history of marks at once. */
  predicate FlagsShow(wf: Workflow, marks: seq<Mark>) {
    && (wf.patched <==> Patched in marks)
    && (wf.tested <==> LastMark(marks).Tested?)
    && (wf.lastFailed <==> LastMark(marks) == Tested(true))
  }

  lemma NoteKeepsShow(wf: Workflow, marks: seq<Mark>, m: Mark)
    requires FlagsShow(wf, marks)
    ensures FlagsShow(Note(wf, m), marks + [m])
  {
    assert (marks + [m])[..|marks|] == marks;
  }

  lemma {:induction false} NoteAllKeepsShow(wf: Workflow, before: seq<Mark>, marks: seq<Mark>)
    requires FlagsShow(wf, before)
    ensures FlagsShow(NoteAll(wf, marks), before + marks)
    ensures NoteAll(wf, marks).usedTools == wf.usedTools && NoteAll(wf, marks).nudges == wf.nudges
    decreases |marks|
  {
    if marks == [] {
      assert before + marks == before;
    } else {
      NoteKeepsShow(wf, before, marks[0]);
      NoteAllKeepsShow(Note(wf, marks[0]), before + [marks[0]], marks[1..]);
      assert before + [marks[0]] + marks[1..] == before + marks;
    }
  }

  // ----- One iteration -----

  /** What comes back in one iteration: no room in the context, a failed token count, a failed round trip, or an
      answer with its tool calls. */
  datatype Reply = NoRoom | TokenError | NoAnswer | Answer(calls: seq<ToolCall>)

  datatype Turn = Turn(reply: Reply, env: Env)

  datatype Exit =
    SafetyLimit | OutOfContext | NoBudget | RetriesSpent | NoMoreCalls | AllDuplicates | BatchStopped(status: int)

  /** Where a mark comes from: a call of the initial batch, or one of an iteration's batch, which found this tracker. */
  datatype Origin = Initial(call: nat) | InLoop(iteration: nat, call: nat, tracker: seq<string>)

  /** marks, origins and ran are history: the marks of every batch so far, the calls they come from, and the ids whose
      tools were run, in order. */
  datatype Loop = Loop(iterations: nat, retries: nat, wf: Workflow, tracker: seq<string>, marks: seq<Mark>,
                       origins: seq<Origin>, ran: seq<string>)

  datatype Step = More(loop: Loop) | Over(loop: Loop, exit: Exit)

  function Code(exit: Exit): int {
    match exit
    case OutOfContext => CONTEXT_FULL
    case NoMoreCalls => 0
    case AllDuplicates => 0
    case BatchStopped(status) => status
    case _ => -1
  }

  /** The model stopped too early: it used tools without patching, patched without testing, or left tests failing. */
  predicate WantsNudge(wf: Workflow) {
    (wf.usedTools && !wf.patched) || (wf.patched && !wf.tested) || (wf.patched && wf.lastFailed)
  }

  predicate AllSeen(calls: seq<ToolCall>, tracker: seq<string>) {
    forall i :: 0 <= i < |calls| ==> Seen(tracker, calls[i].id)
  }

  function RanIds(calls: seq<ToolCall>, executed: seq<Entry>): seq<string> {
    seq(|executed|, k requires 0 <= k < |executed| =>
      if executed[k].call < |calls| && calls[executed[k].call].id.Some? then calls[executed[k].call].id.value else "")
  }

  /** A batch of the loop runs in compact mode after the subagent flag was reset. */
  function LoopBatch(turn: Turn, calls: seq<ToolCall>, tracker: seq<string>): Outcome {
    Batch(turn.env, calls, true, seq(|calls|, _ => 0), tracker, false)
  }

  lemma LoopBatchSized(turn: Turn, calls: seq<ToolCall>, tracker: seq<string>)
    ensures var slots := LoopBatch(turn, calls, tracker).slots;
            slots.count <= |slots.results| && slots.count <= |slots.indices|
  {
    BatchShape(turn.env, calls, true, seq(|calls|, _ => 0), tracker, false);
  }

  /** What the loop takes from a batch: its status, the tracker it leaves, its marks, and the ids it ran. */
  datatype Effect = Effect(status: int, tracker: seq<string>, marks: seq<Mark>, ran: seq<string>)

  function EffectOf(turn: Turn, calls: seq<ToolCall>, tracker: seq<string>): Effect {
    var o := LoopBatch(turn, calls, tracker);
    LoopBatchSized(turn, calls, tracker);
    Effect(o.status, o.tracker, MarksFrom(calls, o.slots, 0), RanIds(calls, o.executed))
  }

  function AfterBatch(s: Loop, e: Effect): Step {
    var t := s.(wf := NoteAll(s.wf.(usedTools := true), e.marks), tracker := e.tracker, marks := s.marks + e.marks,
                origins := s.origins + seq(|e.marks|, (i: nat) => InLoop(s.iterations, i, s.tracker)),
                ran := s.ran + e.ran);
    if e.status != 0 then Over(t, BatchStopped(e.status)) else More(t)
  }

  /** An answer without tool calls: push the model back, or end. */
  function AfterSilence(s: Loop): Step {
    if WantsNudge(s.wf) && s.wf.nudges < MAX_NUDGES then More(s.(wf := s.wf.(nudges := s.wf.nudges + 1)))
    else Over(s, NoMoreCalls)
  }

  function AfterAnswer(s: Loop, calls: seq<ToolCall>, e: Effect): Step {
    if calls == [] then AfterSilence(s)
    else if AllSeen(calls, s.tracker) then Over(s, AllDuplicates)
    else AfterBatch(s, e)
  }

  /** A round trip that brings no answer. */
  function AfterFailure(s: Loop, reply: Reply): Step
    requires !reply.Answer?
  {
    match reply
    case NoRoom => Over(s, OutOfContext)
    case TokenError => Over(s, NoBudget)
    case NoAnswer =>
      var t := s.(retries := s.retries + 1);
      if t.retries <= MAX_RETRIES then More(t) else Over(t, RetriesSpent)
  }

  /** One iteration, given what its batch would do. */
  function IterateWith(s: Loop, reply: Reply, e: Effect): Step {
    var t := s.(iterations := s.iterations + 1);
    if t.iterations > MAX_ITERATIONS then Over(t, SafetyLimit)
    else if reply.Answer? then AfterAnswer(t.(retries := 0), reply.calls, e)
    else AfterFailure(t, reply)
  }

  function Iterate(s: Loop, turn: Turn): Step {
    IterateWith(s, turn.reply,
                if turn.reply.Answer? then EffectOf(turn, turn.reply.calls, s.tracker) else Effect(0, [], [], []))
  }

  lemma IterateOnFailure(s: Loop, turn: Turn)
    requires !turn.reply.Answer? && s.iterations < MAX_ITERATIONS
    ensures Iterate(s, turn) == AfterFailure(s.(iterations := s.iterations + 1), turn.reply)
  {
  }

  lemma IterateOnAnswer(s: Loop, turn: Turn)
    requires turn.reply.Answer? && s.iterations < MAX_ITERATIONS
    ensures var t := s.(iterations := s.iterations + 1, retries := 0);
            Iterate(s, turn) == AfterAnswer(t, turn.reply.calls, EffectOf(turn, turn.reply.calls, s.tracker))
  {
  }

  /** The loop from a state on; iteration k meets turns(k). */
  function RunFrom(s: Loop, turns: nat -> Turn): Step
    ensures RunFrom(s, turns).Over?
    decreases MAX_ITERATIONS - s.iterations
  {
    match Iterate(s, turns(s.iterations + 1))
    case More(t) => RunFrom(t, turns)
    case Over(t, exit) => Over(t, exit)
  }

  // ----- What every iteration keeps -----

  predicate Distinct(ids: seq<string>) {
    forall j, k :: 0 <= j < k < |ids| ==> ids[j] != ids[k]
  }

  /** What has been run is tracked, was not tracked at the start, and is run once. */
  predicate RanOk(before: seq<string>, tracker: seq<string>, ran: seq<string>) {
    && before <= tracker && Distinct(ran)
    && (forall k :: 0 <= k < |ran| ==> ran[k] in tracker && ran[k] !in before)
  }

  /** retries counts the failed round trips since the last answer. */
  predicate RetriesOk(s: Loop, turns: nat -> Turn) {
    && s.retries <= s.iterations
    && (forall k: nat :: s.iterations - s.retries < k <= s.iterations ==> turns(k).reply.NoAnswer?)
    && (s.iterations > s.retries ==> !turns(s.iterations - s.retries).reply.NoAnswer?)
  }

  predicate LoopOk(s: Loop, turns: nat -> Turn, before: seq<string>) {
    && s.iterations <= MAX_ITERATIONS && s.retries <= MAX_RETRIES && s.wf.nudges <= MAX_NUDGES
    && RetriesOk(s, turns) && FlagsShow(s.wf, s.marks) && RanOk(before, s.tracker, s.ran)
  }

  /** A batch runs ids that were not tracked before it, each once, and tracks them. */
  predicate EffectOk(tracker: seq<string>, e: Effect) {
    RanOk(tracker, e.tracker, e.ran) && -2 <= e.status <= 0
  }

  lemma BatchEffectOk(turn: Turn, calls: seq<ToolCall>, tracker: seq<string>)
    ensures EffectOk(tracker, EffectOf(turn, calls, tracker))
  {
    var o := LoopBatch(turn, calls, tracker);
    BatchShape(turn.env, calls, true, seq(|calls|, _ => 0), tracker, false);
    BatchRunsNewIds(turn.env, calls, seq(|calls|, _ => 0), tracker, false);
    RanIdsOk(calls, o.executed, tracker, o.tracker);
  }

  lemma RanIdsOk(calls: seq<ToolCall>, executed: seq<Entry>, before: seq<string>, tracker: seq<string>)
    requires IdsOk(calls, before, tracker, executed)
    ensures RanOk(before, tracker, RanIds(calls, executed))
  {
    var ran := RanIds(calls, executed);
    forall k | 0 <= k < |ran|
      ensures calls[executed[k].call].id == Some(ran[k])
    {
    }
    forall k | 0 <= k < |ran|
      ensures ran[k] in tracker && ran[k] !in before
    {
      assert calls[executed[k].call].id == Some(ran[k]);
    }
    forall j, k | 0 <= j < k < |ran|
      ensures ran[j] != ran[k]
    {
      assert calls[executed[j].call].id == Some(ran[j]) && calls[executed[k].call].id == Some(ran[k]);
    }
  }

  lemma RanOkGrows(before: seq<string>, tracker: seq<string>, ran: seq<string>, e: Effect)
    requires RanOk(before, tracker, ran) && EffectOk(tracker, e)
    ensures RanOk(before, e.tracker, ran + e.ran)
  {
  }

  /** How a run can end. */
  predicate EndOk(s: Loop, exit: Exit, turns: nat -> Turn, before: seq<string>) {
    && s.wf.nudges <= MAX_NUDGES && FlagsShow(s.wf, s.marks) && RanOk(before, s.tracker, s.ran)
    && s.iterations <= MAX_ITERATIONS + (if exit.SafetyLimit? then 1 else 0)
    && (exit.SafetyLimit? ==> s.iterations == MAX_ITERATIONS + 1)
    && (exit.RetriesSpent? ==> s.retries == MAX_RETRIES + 1 && RetriesOk(s, turns))
    && (exit.NoMoreCalls? ==> !WantsNudge(s.wf) || s.wf.nudges == MAX_NUDGES)
    && (exit.BatchStopped? ==> exit.status == -1 || exit.status == -2)
  }

  predicate StepOk(step: Step, turns: nat -> Turn, before: seq<string>) {
    match step
    case More(t) => LoopOk(t, turns, before)
    case Over(t, exit) => EndOk(t, exit, turns, before)
  }

  /** An iteration keeps everything in order and counts itself. */
  predicate Advances(s: Loop, step: Step, turns: nat -> Turn, before: seq<string>) {
    StepOk(step, turns, before) && (step.More? ==> step.loop.iterations == s.iterations + 1)
  }

  lemma IterateWithKeepsOk(s: Loop, e: Effect, turns: nat -> Turn, before: seq<string>)
    requires LoopOk(s, turns, before)
    requires turns(s.iterations + 1).reply.Answer? ==> EffectOk(s.tracker, e)
    ensures Advances(s, IterateWith(s, turns(s.iterations + 1).reply, e), turns, before)
  {
    if turns(s.iterations + 1).reply.Answer? && s.iterations < MAX_ITERATIONS {
      AnsweredKeepsOk(s, e, turns, before);
    } else {
      NoAnswerKeepsOk(s, e, turns, before);
    }
  }

  lemma NoAnswerKeepsOk(s: Loop, e: Effect, turns: nat -> Turn, before: seq<string>)
    requires LoopOk(s, turns, before)
    requires s.iterations >= MAX_ITERATIONS || !turns(s.iterations + 1).reply.Answer?
    ensures Advances(s, IterateWith(s, turns(s.iterations + 1).reply, e), turns, before)
  {
  }

  lemma AnsweredKeepsOk(s: Loop, e: Effect, turns: nat -> Turn, before: seq<string>)
    requires LoopOk(s, turns, before) && s.iterations < MAX_ITERATIONS
    requires turns(s.iterations + 1).reply.Answer? && EffectOk(s.tracker, e)
    ensures Advances(s, IterateWith(s, turns(s.iterations + 1).reply, e), turns, before)
  {
    var t := s.(iterations := s.iterations + 1, retries := 0);
    AnswerCounted(s, turns, before);
    var calls := turns(s.iterations + 1).reply.calls;
    assert IterateWith(s, turns(s.iterations + 1).reply, e) == AfterAnswer(t, calls, e);
    if calls == [] {
      SilenceKeepsOk(t, turns, before);
    } else if !AllSeen(calls, t.tracker) {
      BatchKeepsOk(t, e, turns, before);
    }
  }

  lemma AnswerCounted(s: Loop, turns: nat -> Turn, before: seq<string>)
    requires LoopOk(s, turns, before) && s.iterations < MAX_ITERATIONS && turns(s.iterations + 1).reply.Answer?
    ensures LoopOk(s.(iterations := s.iterations + 1, retries := 0), turns, before)
  {
  }

  lemma SilenceKeepsOk(s: Loop, turns: nat -> Turn, before: seq<string>)
    requires LoopOk(s, turns, before)
    ensures StepOk(AfterSilence(s), turns, before) && AfterSilence(s).loop.iterations == s.iterations
  {
  }

  lemma BatchKeepsOk(s: Loop, e: Effect, turns: nat -> Turn, before: seq<string>)
    requires LoopOk(s, turns, before) && EffectOk(s.tracker, e)
    ensures StepOk(AfterBatch(s, e), turns, before) && AfterBatch(s, e).loop.iterations == s.iterations
  {
    NoteAllKeepsShow(s.wf.(usedTools := true), s.marks, e.marks);
    RanOkGrows(before, s.tracker, s.ran, e);
  }

  lemma IterateKeepsOk(s: Loop, turns: nat -> Turn, before: seq<string>)
    requires LoopOk(s, turns, before)
    ensures StepOk(Iterate(s, turns(s.iterations + 1)), turns, before)
    ensures var step := Iterate(s, turns(s.iterations + 1)); step.More? ==> step.loop.iterations == s.iterations + 1
  {
    var turn := turns(s.iterations + 1);
    if turn.reply.Answer? {
      BatchEffectOk(turn, turn.reply.calls, s.tracker);
      IterateWithKeepsOk(s, EffectOf(turn, turn.reply.calls, s.tracker), turns, before);
    } else {
      IterateWithKeepsOk(s, Effect(0, [], [], []), turns, before);
    }
  }

  lemma RunFromNext(s: Loop, turns: nat -> Turn)
    ensures var next := Iterate(s, turns(s.iterations + 1));
            RunFrom(s, turns) == if next.More? then RunFrom(next.loop, turns) else next
  {
  }

  /** Over a whole run of the loop: at most 200 iterations reach the model, at most three nudges are spent, failed
      round trips end the run only when four come in a row, the flags are the scan of everything that happened, and no
      id is run twice or run again. */
  lemma {:induction false} RunKeepsOk(s: Loop, turns: nat -> Turn, before: seq<string>)
    requires LoopOk(s, turns, before)
    ensures StepOk(RunFrom(s, turns), turns, before)
    decreases MAX_ITERATIONS - s.iterations
  {
    IterateKeepsOk(s, turns, before);
    RunFromNext(s, turns);
    var step := Iterate(s, turns(s.iterations + 1));
    if step.More? {
      RunKeepsOk(step.loop, turns, before);
    }
  }

  // ----- The workflow -----

  function Seed(tracker: seq<string>, calls: seq<ToolCall>): seq<string>
    decreases |calls|
  {
    if calls == [] then tracker
    else Seed(if calls[0].id.Some? then tracker + [calls[0].id.value] else tracker, calls[1..])
  }

  lemma {:induction false} SeedTracks(tracker: seq<string>, calls: seq<ToolCall>)
    ensures tracker <= Seed(tracker, calls)
    ensures AllSeenOrAnonymous(calls, Seed(tracker, calls))
    decreases |calls|
  {
    if calls != [] {
      var next := if calls[0].id.Some? then tracker + [calls[0].id.value] else tracker;
      SeedTracks(next, calls[1..]);
      forall k | 0 <= k < |calls| && calls[k].id.Some?
        ensures Seen(Seed(tracker, calls), calls[k].id)
      {
        if k == 0 {
          assert next[|tracker|] == calls[0].id.value;
        } else {
          assert calls[k] == calls[1..][k - 1];
        }
      }
    }
  }

  predicate AllSeenOrAnonymous(calls: seq<ToolCall>, tracker: seq<string>) {
    forall k :: 0 <= k < |calls| && calls[k].id.Some? ==> Seen(tracker, calls[k].id)
  }

  const NO_FLAGS := Workflow(false, false, false, false, 0)

  /** The loop as the workflow enters it. */
  function Entering(calls: seq<ToolCall>): Loop {
    Loop(0, 0, NoteAll(NO_FLAGS.(usedTools := true), InitialMarks(calls)), Seed([], calls), InitialMarks(calls),
         seq(|calls|, (i: nat) => Initial(i)), [])
  }

  /** The initial batch runs in direct mode on a fresh context. */
  function InitialBatch(env: Env, calls: seq<ToolCall>): Outcome {
    Batch(env, calls, false, [], [], false)
  }

  /** The workflow's return code: -1 without calls, -2 when the initial batch is stopped, and otherwise 0 except that
      a full context is passed on. */
  function WorkflowCode(env: Env, calls: seq<ToolCall>, turns: nat -> Turn): int {
    if calls == [] then -1
    else if InitialBatch(env, calls).status != 0 then -2
    else if Code(RunFrom(Entering(calls), turns).exit) == CONTEXT_FULL then CONTEXT_FULL
    else 0
  }

  lemma EnteringOk(calls: seq<ToolCall>, turns: nat -> Turn)
    ensures LoopOk(Entering(calls), turns, Seed([], calls)) && Entering(calls).wf.usedTools
  {
    NoteAllKeepsShow(NO_FLAGS.(usedTools := true), [], InitialMarks(calls));
    assert [] + InitialMarks(calls) == InitialMarks(calls);
  }

  /** The code that tells the supervisor the context is full is returned for that reason only. */
  lemma ContextFullIff(env: Env, calls: seq<ToolCall>, turns: nat -> Turn)
    requires calls != [] && InitialBatch(env, calls).status == 0
    ensures WorkflowCode(env, calls, turns) == CONTEXT_FULL <==> RunFrom(Entering(calls), turns).exit.OutOfContext?
  {
    EnteringOk(calls, turns);
    RunKeepsOk(Entering(calls), turns, Seed([], calls));
  }

  /** Over a whole workflow, the loop runs no id twice and none that the initial batch held. */
  lemma WorkflowRunsIdsOnce(calls: seq<ToolCall>, turns: nat -> Turn)
    ensures var end := RunFrom(Entering(calls), turns).loop;
            && Distinct(end.ran)
            && forall j, k :: 0 <= j < |end.ran| && 0 <= k < |calls| ==> calls[k].id != Some(end.ran[j])
  {
    EnteringOk(calls, turns);
    RunKeepsOk(Entering(calls), turns, Seed([], calls));
    SeedTracks([], calls);
  }

  lemma IterateWithKeepsUse(s: Loop, reply: Reply, e: Effect)
    requires s.wf.usedTools
    ensures IterateWith(s, reply, e).loop.wf.usedTools
  {
    NoteAllKeepsUse(s.wf.(usedTools := true), e.marks);
  }

  lemma IterateKeepsUse(s: Loop, turn: Turn)
    requires s.wf.usedTools
    ensures Iterate(s, turn).loop.wf.usedTools
  {
    IterateWithKeepsUse(s, turn.reply, if turn.reply.Answer? then EffectOf(turn, turn.reply.calls, s.tracker)
                                       else Effect(0, [], [], []));
  }

  lemma {:induction false} UsedToolsStays(s: Loop, turns: nat -> Turn)
    requires s.wf.usedTools
    ensures RunFrom(s, turns).loop.wf.usedTools
    decreases MAX_ITERATIONS - s.iterations
  {
    var next := Iterate(s, turns(s.iterations + 1));
    IterateKeepsUse(s, turns(s.iterations + 1));
    RunFromNext(s, turns);
    if next.More? {
      UsedToolsStays(next.loop, turns);
    }
  }

  lemma {:induction false} NoteAllKeepsUse(wf: Workflow, marks: seq<Mark>)
    ensures NoteAll(wf, marks).usedTools == wf.usedTools
    decreases |marks|
  {
    if marks != [] {
      NoteAllKeepsUse(Note(wf, marks[0]), marks[1..]);
    }
  }

  /** The model may stop calling tools only when the three nudges are spent, or when over the whole workflow there was
      a call of a patch tool and the last call of a patch tool or of the shell was one of the shell whose result, if it
      has one, reports no failure. Whether that call was run is another matter: see ToolTests. */
  lemma StopsOnlyWhenTested(calls: seq<ToolCall>, turns: nat -> Turn)
    requires RunFrom(Entering(calls), turns).exit.NoMoreCalls?
    ensures var end := RunFrom(Entering(calls), turns).loop;
            end.wf.nudges == MAX_NUDGES || (Patched in end.marks && LastMark(end.marks) == Tested(false))
  {
    EnteringOk(calls, turns);
    RunKeepsOk(Entering(calls), turns, Seed([], calls));
    UsedToolsStays(Entering(calls), turns);
  }

  /** Four failed round trips in a row end the run, and nothing else ends it for failed round trips. */
  lemma FourFailuresInARow(calls: seq<ToolCall>, turns: nat -> Turn)
    requires RunFrom(Entering(calls), turns).exit.RetriesSpent?
    ensures var n := RunFrom(Entering(calls), turns).loop.iterations;
            4 <= n <= MAX_ITERATIONS && forall k: nat :: n - 4 < k <= n ==> turns(k).reply.NoAnswer?
  {
    EnteringOk(calls, turns);
    RunKeepsOk(Entering(calls), turns, Seed([], calls));
  }
}
