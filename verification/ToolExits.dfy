/** When and why the tool loop (lib/agent/iterative_loop.c) goes on or ends, told from the replies it meets. */
module ToolExits {
  import opened Wrappers
  import opened ToolBatch
  import opened ToolLoop
  import opened ToolScreening
  import opened ToolSlots

  // ----- What has been met -----

  function IdsOf(calls: seq<ToolCall>): set<string> {
    set c | c in calls && c.id.Some? :: c.id.value
  }

  /** The ids of the initial batch and of all answers up to the n-th reply. */
  function IdsSoFar(calls: seq<ToolCall>, turns: nat -> Turn, n: nat): set<string> {
    if n == 0 then IdsOf(calls)
    else IdsSoFar(calls, turns, n - 1) + if turns(n).reply.Answer? then IdsOf(turns(n).reply.calls) else {}
  }

  predicate AllKnown(calls: seq<ToolCall>, ids: set<string>) {
    forall c :: c in calls ==> c.id.Some? && c.id.value in ids
  }

  /** The answers without tool calls among the first n replies. */
  function Silences(turns: nat -> Turn, n: nat): nat {
    if n == 0 then 0 else Silences(turns, n - 1) + if turns(n).reply == Answer([]) then 1 else 0
  }

  predicate FourFailures(turns: nat -> Turn, n: nat) {
    n >= 4 && turns(n).reply.NoAnswer? && turns(n - 1).reply.NoAnswer? && turns(n - 2).reply.NoAnswer?
    && turns(n - 3).reply.NoAnswer?
  }

  ghost predicate Tracks(tracker: seq<string>, ids: set<string>) {
    forall id :: id in tracker <==> id in ids
  }

  /** The status of a batch of the loop: an interrupt, an abort, or none. */
  function StatusOf(turn: Turn, calls: seq<ToolCall>, tracker: seq<string>): int {
    var b := Job(turn.env, calls, true, tracker, false);
    var f := FirstStop(b, 0);
    if f < |calls| then if turn.env.pending(f) then -2 else -1
    else if turn.env.pendingAfter && exists j :: 0 <= j < |calls| && Passes(b, j) then -2
    else 0
  }

  lemma EffectStatus(turn: Turn, calls: seq<ToolCall>, tracker: seq<string>)
    ensures EffectOf(turn, calls, tracker).status == StatusOf(turn, calls, tracker)
  {
    StatusMeans(Job(turn.env, calls, true, tracker, false), seq(|calls|, _ => 0));
  }

  // ----- The state after each iteration -----

  /** The loop after k iterations, unless it has ended by then. */
  function StateAt(calls: seq<ToolCall>, turns: nat -> Turn, k: nat): Option<Loop> {
    if k == 0 then Some(Entering(calls))
    else
      match StateAt(calls, turns, k - 1)
      case None => None
      case Some(s) => match Iterate(s, turns(k)) case More(t) => Some(t) case Over(_, _) => None
  }

  ghost predicate StateOk(calls: seq<ToolCall>, turns: nat -> Turn, k: nat, s: Loop) {
    && s.iterations == k && LoopOk(s, turns, Seed([], calls)) && s.wf.usedTools
    && Tracks(s.tracker, IdsSoFar(calls, turns, k)) && s.wf.nudges == Silences(turns, k)
  }

  lemma {:induction false} SeedMeans(tracker: seq<string>, calls: seq<ToolCall>, id: string)
    ensures id in Seed(tracker, calls) <==> id in tracker || id in IdsOf(calls)
    decreases |calls|
  {
    if calls != [] {
      var next := if calls[0].id.Some? then tracker + [calls[0].id.value] else tracker;
      SeedMeans(next, calls[1..], id);
      assert calls == [calls[0]] + calls[1..];
      assert IdsOf(calls) == IdsOf(calls[1..]) + if calls[0].id.Some? then {calls[0].id.value} else {};
    }
  }

  lemma BatchTracks(turn: Turn, calls: seq<ToolCall>, tracker: seq<string>, ids: set<string>)
    requires Tracks(tracker, ids) && EffectOf(turn, calls, tracker).status == 0
    ensures Tracks(EffectOf(turn, calls, tracker).tracker, ids + IdsOf(calls))
  {
    var b := Job(turn.env, calls, true, tracker, false);
    EffectStatus(turn, calls, tracker);
    forall id: string
      ensures id in EffectOf(turn, calls, tracker).tracker <==> id in ids + IdsOf(calls)
    {
      TrackedMeans(b, seq(|calls|, _ => 0), id);
      if j :| 0 <= j < |calls| && calls[j].id == Some(id) {
        assert calls[j] in calls;
      }
      if id in IdsOf(calls) {
        var c :| c in calls && c.id == Some(id);
        var j :| 0 <= j < |calls| && calls[j] == c;
      }
    }
  }

  lemma KnownIff(calls: seq<ToolCall>, tracker: seq<string>, ids: set<string>)
    requires Tracks(tracker, ids)
    ensures AllSeen(calls, tracker) <==> AllKnown(calls, ids)
  {
    if AllSeen(calls, tracker) {
      forall c | c in calls
        ensures c.id.Some? && c.id.value in ids
      {
        var j :| 0 <= j < |calls| && calls[j] == c;
        assert Seen(tracker, calls[j].id);
      }
    }
    if AllKnown(calls, ids) {
      forall i | 0 <= i < |calls|
        ensures Seen(tracker, calls[i].id)
      {
        assert calls[i] in calls;
      }
    }
  }

  // ----- Each iteration -----

  /** The history of marks asks for a nudge: no patch yet, or none tested since without a reported failure. */
  predicate Unfinished(marks: seq<Mark>) {
    Patched !in marks || LastMark(marks) != Tested(false)
  }

  /** The reply of iteration k, met in state s, lets the loop go on: a failed round trip if it is not the fourth in a
      row, a silence if the work is unfinished and fewer than three came before it, an answer with calls if some call
      is new and nothing stops its batch. */
  predicate LetsGoOn(calls: seq<ToolCall>, turns: nat -> Turn, k: nat, s: Loop)
    requires k > 0
  {
    k <= 200
    && match turns(k).reply
       case NoRoom => false
       case TokenError => false
       case NoAnswer => !FourFailures(turns, k)
       case Answer(asked) =>
         if asked == [] then Unfinished(s.marks) && Silences(turns, k - 1) < 3
         else !AllKnown(asked, IdsSoFar(calls, turns, k - 1)) && StatusOf(turns(k), asked, s.tracker) == 0
  }

  /** And this is the exit if it does not. */
  function ExitFor(calls: seq<ToolCall>, turns: nat -> Turn, k: nat, s: Loop): Exit
    requires k > 0
  {
    if k > 200 then SafetyLimit
    else
      match turns(k).reply
      case NoRoom => OutOfContext
      case TokenError => NoBudget
      case NoAnswer => RetriesSpent
      case Answer(asked) =>
        if asked == [] then NoMoreCalls
        else if AllKnown(asked, IdsSoFar(calls, turns, k - 1)) then AllDuplicates
        else BatchStopped(StatusOf(turns(k), asked, s.tracker))
  }

  lemma EnteringStateOk(calls: seq<ToolCall>, turns: nat -> Turn)
    ensures StateOk(calls, turns, 0, Entering(calls))
  {
    EnteringOk(calls, turns);
    NoteAllKeepsNudges(calls);
    forall id: string
      ensures id in Seed([], calls) <==> id in IdsOf(calls)
    {
      SeedMeans([], calls, id);
    }
  }

  lemma NoteAllKeepsNudges(calls: seq<ToolCall>)
    ensures Entering(calls).wf.nudges == 0
  {
    NoteAllKeepsShow(NO_FLAGS.(usedTools := true), [], InitialMarks(calls));
  }

  lemma FailedTrip(calls: seq<ToolCall>, turns: nat -> Turn, k: nat, s: Loop)
    requires 0 < k <= 200 && StateOk(calls, turns, k - 1, s) && turns(k).reply.NoAnswer?
    ensures Iterate(s, turns(k)).More? <==> !FourFailures(turns, k)
    ensures Iterate(s, turns(k)).Over? ==> Iterate(s, turns(k)).exit == RetriesSpent
    ensures Iterate(s, turns(k)).loop == s.(iterations := k, retries := s.retries + 1)
  {
    IterateOnFailure(s, turns(k));
    assert s.iterations - s.retries < k - 1 ==> turns(k - 1).reply.NoAnswer?;
    assert s.iterations - s.retries < k - 2 ==> turns(k - 2).reply.NoAnswer?;
    assert s.iterations - s.retries < k - 3 ==> turns(k - 3).reply.NoAnswer?;
  }

  lemma Silence(calls: seq<ToolCall>, turns: nat -> Turn, k: nat, s: Loop)
    requires 0 < k <= 200 && StateOk(calls, turns, k - 1, s) && turns(k).reply == Answer([])
    ensures Iterate(s, turns(k)).More? <==> Unfinished(s.marks) && Silences(turns, k - 1) < 3
    ensures Iterate(s, turns(k)).Over? ==> Iterate(s, turns(k)).exit == NoMoreCalls
    ensures var nudges := s.wf.nudges + if Iterate(s, turns(k)).More? then 1 else 0;
            Iterate(s, turns(k)).loop == s.(iterations := k, retries := 0, wf := s.wf.(nudges := nudges))
  {
    IterateOnAnswer(s, turns(k));
  }

  lemma AnsweredCalls(calls: seq<ToolCall>, turns: nat -> Turn, k: nat, s: Loop)
    requires 0 < k <= 200 && StateOk(calls, turns, k - 1, s)
    requires turns(k).reply.Answer? && turns(k).reply.calls != []
    ensures Iterate(s, turns(k)).More? <==> LetsGoOn(calls, turns, k, s)
    ensures Iterate(s, turns(k)).Over? ==> Iterate(s, turns(k)).exit == ExitFor(calls, turns, k, s)
    ensures var t, asked := Iterate(s, turns(k)).loop, turns(k).reply.calls;
            && t.iterations == k && t.wf.usedTools && t.wf.nudges == s.wf.nudges
            && (Iterate(s, turns(k)).More? ==> Tracks(t.tracker, IdsSoFar(calls, turns, k - 1) + IdsOf(asked)))
  {
    var asked := turns(k).reply.calls;
    var e := EffectOf(turns(k), asked, s.tracker);
    IterateOnAnswer(s, turns(k));
    KnownIff(asked, s.tracker, IdsSoFar(calls, turns, k - 1));
    EffectStatus(turns(k), asked, s.tracker);
    if e.status == 0 {
      BatchTracks(turns(k), asked, s.tracker, IdsSoFar(calls, turns, k - 1));
    }
    NoteAllKeepsUse(s.wf.(usedTools := true), e.marks);
    NoteAllKeepsCount(s.wf.(usedTools := true), e.marks);
  }

  lemma {:induction false} NoteAllKeepsCount(wf: Workflow, marks: seq<Mark>)
    ensures NoteAll(wf, marks).nudges == wf.nudges
    decreases |marks|
  {
    if marks != [] {
      NoteAllKeepsCount(Note(wf, marks[0]), marks[1..]);
    }
  }

  /** The step of iteration k is exactly what its reply and what came before it say. */
  ghost predicate Means(calls: seq<ToolCall>, turns: nat -> Turn, k: nat, s: Loop, step: Step) {
    && k > 0
    && (step.More? <==> LetsGoOn(calls, turns, k, s))
    && (step.Over? ==> step.exit == ExitFor(calls, turns, k, s) && step.loop.iterations == k)
    && (step.More? ==> StateOk(calls, turns, k, step.loop))
  }

  lemma StepLoopOk(turns: nat -> Turn, s: Loop, before: seq<string>, step: Step)
    requires LoopOk(s, turns, before) && step == Iterate(s, turns(s.iterations + 1))
    ensures step.More? ==> LoopOk(step.loop, turns, before)
  {
    IterateKeepsOk(s, turns, before);
  }

  lemma FailedTripMeans(calls: seq<ToolCall>, turns: nat -> Turn, k: nat, s: Loop)
    requires 0 < k <= 200 && StateOk(calls, turns, k - 1, s) && turns(k).reply.NoAnswer?
    ensures Means(calls, turns, k, s, Iterate(s, turns(k)))
  {
    FailedTrip(calls, turns, k, s);
    StepLoopOk(turns, s, Seed([], calls), Iterate(s, turns(k)));
    FailedStepMeans(calls, turns, k, s, Iterate(s, turns(k)));
  }

  lemma FailedStepMeans(calls: seq<ToolCall>, turns: nat -> Turn, k: nat, s: Loop, step: Step)
    requires 0 < k <= 200 && StateOk(calls, turns, k - 1, s) && turns(k).reply.NoAnswer?
    requires step.More? <==> !FourFailures(turns, k)
    requires step.Over? ==> step.exit == RetriesSpent
    requires step.loop == s.(iterations := k, retries := s.retries + 1)
    requires step.More? ==> LoopOk(step.loop, turns, Seed([], calls))
    ensures Means(calls, turns, k, s, step)
  {
  }

  lemma SilenceMeans(calls: seq<ToolCall>, turns: nat -> Turn, k: nat, s: Loop)
    requires 0 < k <= 200 && StateOk(calls, turns, k - 1, s) && turns(k).reply == Answer([])
    ensures Means(calls, turns, k, s, Iterate(s, turns(k)))
  {
    Silence(calls, turns, k, s);
    StepLoopOk(turns, s, Seed([], calls), Iterate(s, turns(k)));
    SilentStepMeans(calls, turns, k, s, Iterate(s, turns(k)));
  }

  lemma SilentStepMeans(calls: seq<ToolCall>, turns: nat -> Turn, k: nat, s: Loop, step: Step)
    requires 0 < k <= 200 && StateOk(calls, turns, k - 1, s) && turns(k).reply == Answer([])
    requires step.More? <==> Unfinished(s.marks) && Silences(turns, k - 1) < 3
    requires step.Over? ==> step.exit == NoMoreCalls
    requires step.loop == s.(iterations := k, retries := 0,
                             wf := s.wf.(nudges := s.wf.nudges + if step.More? then 1 else 0))
    requires step.More? ==> LoopOk(step.loop, turns, Seed([], calls))
    ensures Means(calls, turns, k, s, step)
  {
    assert IdsOf([]) == {};
  }

  lemma AnsweredMeans(calls: seq<ToolCall>, turns: nat -> Turn, k: nat, s: Loop)
    requires 0 < k <= 200 && StateOk(calls, turns, k - 1, s)
    requires turns(k).reply.Answer? && turns(k).reply.calls != []
    ensures Means(calls, turns, k, s, Iterate(s, turns(k)))
  {
    AnsweredCalls(calls, turns, k, s);
    StepLoopOk(turns, s, Seed([], calls), Iterate(s, turns(k)));
    AnsweredStepMeans(calls, turns, k, s, Iterate(s, turns(k)));
  }

  lemma AnsweredStepMeans(calls: seq<ToolCall>, turns: nat -> Turn, k: nat, s: Loop, step: Step)
    requires 0 < k <= 200 && StateOk(calls, turns, k - 1, s)
    requires turns(k).reply.Answer? && turns(k).reply.calls != []
    requires step.More? <==> LetsGoOn(calls, turns, k, s)
    requires step.Over? ==> step.exit == ExitFor(calls, turns, k, s)
    requires step.More? ==> LoopOk(step.loop, turns, Seed([], calls))
    requires var t := step.loop;
             && t.iterations == k && t.wf.usedTools && t.wf.nudges == s.wf.nudges
             && (step.More? ==> Tracks(t.tracker, IdsSoFar(calls, turns, k - 1) + IdsOf(turns(k).reply.calls)))
    ensures Means(calls, turns, k, s, step)
  {
  }

  lemma EndMeans(calls: seq<ToolCall>, turns: nat -> Turn, k: nat, s: Loop)
    requires 0 < k && StateOk(calls, turns, k - 1, s)
    requires k > 200 || turns(k).reply.NoRoom? || turns(k).reply.TokenError?
    ensures Means(calls, turns, k, s, Iterate(s, turns(k)))
  {
    if k <= 200 {
      IterateOnFailure(s, turns(k));
    }
  }

  lemma IterationMeans(calls: seq<ToolCall>, turns: nat -> Turn, k: nat, s: Loop)
    requires 0 < k && StateOk(calls, turns, k - 1, s)
    ensures Means(calls, turns, k, s, Iterate(s, turns(k)))
  {
    if k > 200 || turns(k).reply.NoRoom? || turns(k).reply.TokenError? {
      EndMeans(calls, turns, k, s);
    } else if turns(k).reply.NoAnswer? {
      FailedTripMeans(calls, turns, k, s);
    } else if turns(k).reply.calls == [] {
      SilenceMeans(calls, turns, k, s);
    } else {
      AnsweredMeans(calls, turns, k, s);
    }
  }

  // ----- Whole runs -----

  lemma {:induction false} StateAtOk(calls: seq<ToolCall>, turns: nat -> Turn, k: nat)
    ensures StateAt(calls, turns, k).Some? ==> StateOk(calls, turns, k, StateAt(calls, turns, k).value)
  {
    if k == 0 {
      EnteringStateOk(calls, turns);
    } else {
      StateAtOk(calls, turns, k - 1);
      if StateAt(calls, turns, k - 1).Some? {
        IterationMeans(calls, turns, k, StateAt(calls, turns, k - 1).value);
      }
    }
  }

  /** After a state that the loop is in, it goes on exactly when the next reply lets it. */
  lemma GoesOnIff(calls: seq<ToolCall>, turns: nat -> Turn, k: nat)
    requires k > 0 && StateAt(calls, turns, k - 1).Some?
    ensures StateAt(calls, turns, k).Some? <==> LetsGoOn(calls, turns, k, StateAt(calls, turns, k - 1).value)
  {
    StateAtOk(calls, turns, k - 1);
    IterationMeans(calls, turns, k, StateAt(calls, turns, k - 1).value);
  }

  /** From a state the run ends in a way. */
  predicate LeadsTo(s: Loop, turns: nat -> Turn, end: Step) {
    RunFrom(s, turns) == end
  }

  lemma LeadsOn(s: Loop, turns: nat -> Turn, end: Step, t: Loop)
    requires LeadsTo(s, turns, end) && Iterate(s, turns(s.iterations + 1)) == More(t)
    ensures LeadsTo(t, turns, end)
  {
    RunFromNext(s, turns);
  }

  lemma LeadsToEnd(s: Loop, turns: nat -> Turn, end: Step)
    requires LeadsTo(s, turns, end) && Iterate(s, turns(s.iterations + 1)).Over?
    ensures end == Iterate(s, turns(s.iterations + 1))
  {
    RunFromNext(s, turns);
  }

  lemma StateBefore(calls: seq<ToolCall>, turns: nat -> Turn, k: nat) returns (s: Loop, t: Loop)
    requires k > 0 && StateAt(calls, turns, k).Some?
    ensures StateAt(calls, turns, k - 1) == Some(s) && StateAt(calls, turns, k) == Some(t)
    ensures s.iterations == k - 1 && Iterate(s, turns(k)) == More(t)
  {
    s, t := StateAt(calls, turns, k - 1).value, StateAt(calls, turns, k).value;
    StateAtOk(calls, turns, k - 1);
  }

  lemma {:induction false} RunFromState(calls: seq<ToolCall>, turns: nat -> Turn, k: nat, end: Step)
    requires StateAt(calls, turns, k).Some? && LeadsTo(Entering(calls), turns, end)
    ensures LeadsTo(StateAt(calls, turns, k).value, turns, end)
  {
    if k > 0 {
      var s, t := StateBefore(calls, turns, k);
      RunFromState(calls, turns, k - 1, end);
      LeadsOn(s, turns, end, t);
    }
  }

  lemma NoneAfterLimit(calls: seq<ToolCall>, turns: nat -> Turn, k: nat)
    requires k > 200
    ensures StateAt(calls, turns, k).None?
  {
    if StateAt(calls, turns, k - 1).Some? {
      GoesOnIff(calls, turns, k);
    }
  }

  /** The loop has come through all iterations before its last one. */
  lemma {:induction false} LastIteration(calls: seq<ToolCall>, turns: nat -> Turn, m: nat) returns (n: nat)
    requires StateAt(calls, turns, m).None?
    ensures 0 < n <= m && StateAt(calls, turns, n - 1).Some? && StateAt(calls, turns, n).None?
  {
    if StateAt(calls, turns, m - 1).Some? {
      n := m;
    } else {
      n := LastIteration(calls, turns, m - 1);
    }
  }

  /** Iteration k was made and let the loop go on. */
  predicate WentOn(calls: seq<ToolCall>, turns: nat -> Turn, k: nat) {
    k > 0 && StateAt(calls, turns, k - 1).Some? && LetsGoOn(calls, turns, k, StateAt(calls, turns, k - 1).value)
  }

  /** The loop ends in its n-th iteration, with the exit that its reply gives. */
  predicate EndsAfter(calls: seq<ToolCall>, turns: nat -> Turn, n: nat, end: Step) {
    && n > 0 && StateAt(calls, turns, n - 1).Some? && end.Over? && end.loop.iterations == n
    && !LetsGoOn(calls, turns, n, StateAt(calls, turns, n - 1).value)
    && end.exit == ExitFor(calls, turns, n, StateAt(calls, turns, n - 1).value)
  }

  lemma EndsThere(calls: seq<ToolCall>, turns: nat -> Turn, n: nat, end: Step)
    requires n > 0 && StateAt(calls, turns, n - 1).Some? && StateAt(calls, turns, n).None?
    requires LeadsTo(Entering(calls), turns, end)
    ensures EndsAfter(calls, turns, n, end)
  {
    var s := StateAt(calls, turns, n - 1).value;
    GoesOnIff(calls, turns, n);
    StateAtOk(calls, turns, n - 1);
    IterationMeans(calls, turns, n, s);
    RunFromState(calls, turns, n - 1, end);
    LeadsToEnd(s, turns, end);
  }

  lemma WentOnBefore(calls: seq<ToolCall>, turns: nat -> Turn, k: nat, m: nat)
    requires 0 < k <= m && StateAt(calls, turns, m).Some?
    ensures WentOn(calls, turns, k)
  {
    AllBefore(calls, turns, k, m);
    AllBefore(calls, turns, k - 1, m);
    GoesOnIff(calls, turns, k);
  }

  /** Every run ends at the first reply that does not let it go on, and that reply says how. */
  lemma ExitHasCause(calls: seq<ToolCall>, turns: nat -> Turn) returns (n: nat)
    ensures 0 < n <= 201 && EndsAfter(calls, turns, n, RunFrom(Entering(calls), turns))
    ensures forall k :: 0 < k < n ==> WentOn(calls, turns, k)
  {
    n := ExitBefore(calls, turns, RunFrom(Entering(calls), turns), MAX_ITERATIONS + 1);
  }

  lemma ExitBefore(calls: seq<ToolCall>, turns: nat -> Turn, end: Step, m: nat) returns (n: nat)
    requires m > 200 && LeadsTo(Entering(calls), turns, end)
    ensures 0 < n <= m && EndsAfter(calls, turns, n, end) && forall k :: 0 < k < n ==> WentOn(calls, turns, k)
  {
    NoneAfterLimit(calls, turns, m);
    n := LastIteration(calls, turns, m);
    EndsThere(calls, turns, n, end);
    forall k | 0 < k < n
      ensures WentOn(calls, turns, k)
    {
      WentOnBefore(calls, turns, k, n - 1);
    }
  }

  lemma {:induction false} AllBefore(calls: seq<ToolCall>, turns: nat -> Turn, k: nat, m: nat)
    requires k <= m && StateAt(calls, turns, m).Some?
    ensures StateAt(calls, turns, k).Some?
    decreases m - k
  {
    if k < m {
      AllBefore(calls, turns, k, m - 1);
    }
  }

  /** Failed round trips of which no four come in a row never end a run. */
  lemma FailuresAreRetried(calls: seq<ToolCall>, turns: nat -> Turn)
    requires forall k: nat :: !FourFailures(turns, k)
    ensures var end := RunFrom(Entering(calls), turns);
            end.loop.iterations <= 200 ==> !turns(end.loop.iterations).reply.NoAnswer? && end.exit != RetriesSpent
  {
    var n := ExitHasCause(calls, turns);
  }

  /** A failed token count ends the loop at once with -1, a full context with the code for it, and no other reply
      does. */
  lemma BudgetExitsIff(calls: seq<ToolCall>, turns: nat -> Turn)
    ensures var end := RunFrom(Entering(calls), turns);
            var n := end.loop.iterations;
            && (end.exit == NoBudget <==> n <= 200 && turns(n).reply == TokenError)
            && (end.exit == OutOfContext <==> n <= 200 && turns(n).reply == NoRoom)
            && (end.exit == RetriesSpent <==> n <= 200 && FourFailures(turns, n))
            && (end.exit == SafetyLimit <==> n == 201)
            && Code(end.exit) == match end.exit
                                 case OutOfContext => -3
                                 case NoMoreCalls => 0
                                 case AllDuplicates => 0
                                 case BatchStopped(status) => status
                                 case _ => -1
  {
    var n := ExitHasCause(calls, turns);
  }

  // ----- The workflow's code -----

  /** A batch in direct mode on a fresh context is stopped: an interrupt or an abort, before or after its tools. */
  predicate Stopped(env: Env, calls: seq<ToolCall>) {
    var b := Job(env, calls, false, [], false);
    FirstStop(b, 0) < |calls| || (env.pendingAfter && exists j :: 0 <= j < |calls| && Passes(b, j))
  }

  /** -1 without calls, -2 exactly when the initial batch is stopped, -3 exactly when the loop then runs out of context,
      and 0 whatever else ends it. */
  lemma WorkflowCodeMeans(env: Env, calls: seq<ToolCall>, turns: nat -> Turn)
    ensures WorkflowCode(env, calls, turns)
            == if calls == [] then -1
               else if Stopped(env, calls) then -2
               else if RunFrom(Entering(calls), turns).exit == OutOfContext then -3
               else 0
  {
    StatusMeans(Job(env, calls, false, [], false), []);
    if calls != [] && InitialBatch(env, calls).status == 0 {
      ContextFullIff(env, calls, turns);
    }
  }
}
