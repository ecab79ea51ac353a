/** tool_batch_execute itself: the loops over the caller's arrays, proved to leave what ToolBatch.Batch says. */
module ToolBatchExecutor {
  import opened ToolBatch

  ghost function Now(results: array<ToolResult>, indices: array?<int>, count: nat): Slots
    reads results, indices
  {
    Slots(results[..], if indices == null then [] else indices[..], count)
  }

  ghost function Contents(indices: array?<int>): seq<int>
    reads indices
  {
    if indices == null then [] else indices[..]
  }

  /** The caller's arrays have one element for each call. */
  ghost predicate Sized(n: nat, results: array<ToolResult>, indices: array?<int>) {
    results.Length == n && (indices != null ==> indices.Length == n)
  }

  /** fill_remaining_interrupted. */
  method FillRemainingInterrupted(orch: Orchestration, calls: seq<ToolCall>, start: nat, results: array<ToolResult>,
                                  indices: array?<int>, taken: nat)
    returns (count: nat)
    requires Sized(|calls|, results, indices)
    requires start <= |calls| && Fits(Now(results, indices, taken), indices != null, |calls|, start)
    modifies results, indices
    ensures Now(results, indices, count)
            == FillInterrupted(calls, indices != null, orch.tracker, start, old(Now(results, indices, taken)))
  {
    count := taken;
    for j := start to |calls|
      invariant Fits(Now(results, indices, count), indices != null, |calls|, j)
      invariant FillInterrupted(calls, indices != null, orch.tracker, j, Now(results, indices, count))
                == FillInterrupted(calls, indices != null, orch.tracker, start, old(Now(results, indices, taken)))
    {
      if indices != null {
        var dup := orch.IsDuplicate(calls[j].id);
        if dup {
          continue;
        }
        indices[count] := j;
      }
      results[if indices != null then count else j] := Failure(calls[j], INTERRUPTED);
      count := count + 1;
    }
  }

  /** The abort path of direct mode. */
  method FillRemainingAborted(calls: seq<ToolCall>, start: nat, results: array<ToolResult>) returns (count: nat)
    requires results.Length == |calls| && start <= |calls|
    modifies results
    ensures Now(results, null, count) == FillAborted(calls, start, old(Now(results, null, start)))
  {
    for j := start to |calls|
      invariant FillAborted(calls, j, Now(results, null, j))
             == FillAborted(calls, start, old(Now(results, null, start)))
    {
      results[j] := Failure(calls[j], ABORTED);
    }
    count := |calls|;
  }

  ghost function ScreenNow(orch: Orchestration, results: array<ToolResult>, indices: array?<int>, count: nat,
                           approved: seq<Entry>, status: int): Screen
    reads orch, results, indices
  {
    Screen(Now(results, indices, count), orch.tracker, orch.spawned, approved, status)
  }

  /** A call's index may be written before its verdict is known, unless it is passed over. */
  lemma SameSettled(calls: seq<ToolCall>, i: nat, slots: Slots, tracker: seq<string>)
    requires i < |calls| && Fits(slots, true, |calls|, i)
    ensures var marked := slots.(indices := slots.indices[slots.count := i]);
            forall v: Verdict :: !v.Interrupt? && !v.Skip? ==>
                                   Settle(v, calls, true, tracker, i, marked)
                                   == Settle(v, calls, true, tracker, i, slots)
  {
    var marked := slots.(indices := slots.indices[slots.count := i]);
    assert marked.indices[slots.count := i] == marked.indices;
  }

  /** The part of it that asks the gate. In compact mode the call's index has been written. */
  method AskGate(env: Env, calls: seq<ToolCall>, i: nat, results: array<ToolResult>, indices: array?<int>,
                 taken: nat, already: seq<Entry>, ghost tracker: seq<string>)
    returns (count: nat, approved: seq<Entry>, status: int)
    requires Sized(|calls|, results, indices) && i < |calls|
    requires Fits(Now(results, indices, taken), indices != null, |calls|, i)
    requires indices != null ==> indices[taken] == i
    modifies results
    ensures Now(results, indices, count)
            == old(Settle(GateVerdict(env.approval(i)), calls, indices != null, tracker, i,
                          Now(results, indices, taken)))
    ensures var entry := Entry(i, if indices != null then taken else i);
            approved == already + if env.approval(i).Allowed? then [entry] else []
    ensures status == if env.approval(i).Abort? then -1 else 0
  {
    var slot := if indices != null then taken else i;
    count, approved, status := taken + 1, already, 0;
    match env.approval(i)
    case Abort =>
      status := -1;
      results[slot] := Failure(calls[i], ABORTED);
      if indices == null {
        count := FillRemainingAborted(calls, i + 1, results);
      }
    case Blocked(text) =>
      results[slot] := Failure(calls[i], text);
    case Allowed =>
      approved := approved + [Entry(i, slot)];
  }

  /** Phase 1: one call. */
  method ScreenCall(env: Env, orch: Orchestration, calls: seq<ToolCall>, i: nat, results: array<ToolResult>,
                    indices: array?<int>, taken: nat, already: seq<Entry>)
    returns (count: nat, approved: seq<Entry>, status: int)
    requires Sized(|calls|, results, indices) && i < |calls|
    requires Fits(Now(results, indices, taken), indices != null, |calls|, i)
    modifies orch, results, indices
    ensures ScreenNow(orch, results, indices, count, approved, status)
            == ScreenOne(env, calls, indices != null, i, old(ScreenNow(orch, results, indices, taken, already, 0)))
  {
    var call := calls[i];
    count, approved, status := taken, already, 0;
    if env.pending(i) {
      status := -2;
      count := FillRemainingInterrupted(orch, calls, i, results, indices, count);
      return;
    }
    if indices != null {
      var dup := orch.IsDuplicate(call.id);
      if dup {
        return;
      }
      var marked := orch.MarkExecuted(call.id);
      if !marked {
        return;
      }
      SameSettled(calls, i, old(Now(results, indices, taken)), old(orch.tracker));
      indices[count] := i;
    }
    var slot := if indices != null then count else i;
    var maySpawn := orch.CanSpawnSubagent(call.name);
    if !maySpawn {
      results[slot] := Failure(call, DUPLICATE_SUBAGENT);
      count := count + 1;
      return;
    }
    count, approved, status := AskGate(env, calls, i, results, indices, count, approved, old(orch.tracker));
  }

  /** Phase 2, one tool after another. */
  method RunSerially(env: Env, calls: seq<ToolCall>, entries: seq<Entry>, results: array<ToolResult>)
    requires InRange(entries, calls, results[..])
    modifies results
    ensures results[..] == ExecAll(env, calls, entries, old(results[..]))
  {
    for k := 0 to |entries|
      invariant results[..] == ExecAll(env, calls, entries[..k], old(results[..]))
    {
      assert entries[..k + 1][..k] == entries[..k];
      results[entries[k].slot] := env.exec(calls[entries[k].call]);
    }
    assert entries[..|entries|] == entries;
  }

  lemma ExecOneMore(env: Env, calls: seq<ToolCall>, entries: seq<Entry>, e: Entry, results: seq<ToolResult>)
    requires InRange(entries, calls, results) && e.call < |calls| && e.slot < |results|
    ensures InRange(entries + [e], calls, results)
    ensures ExecAll(env, calls, entries + [e], results)
            == ExecAll(env, calls, entries, results)[e.slot := env.exec(calls[e.call])]
  {
    assert (entries + [e])[..|entries|] == entries;
  }

  lemma TakingOut(entries: seq<Entry>, k: nat)
    requires k < |entries|
    ensures multiset(entries) == multiset{entries[k]} + multiset(entries[..k] + entries[k + 1..])
  {
    assert entries == entries[..k] + [entries[k]] + entries[k + 1..];
  }

  /** The tools that have finished, in that order, and those still running are the approved ones. */
  ghost predicate Underway(calls: seq<ToolCall>, entries: seq<Entry>, finished: seq<Entry>, running: seq<Entry>,
                           results: seq<ToolResult>)
  {
    && multiset(finished) + multiset(running) == multiset(entries)
    && InRange(finished, calls, results) && InRange(running, calls, results)
  }

  lemma OneMoreFinished(calls: seq<ToolCall>, entries: seq<Entry>, finished: seq<Entry>, running: seq<Entry>,
                        results: seq<ToolResult>, k: nat)
    requires Underway(calls, entries, finished, running, results) && k < |running|
    ensures Underway(calls, entries, finished + [running[k]], running[..k] + running[k + 1..], results)
  {
    TakingOut(running, k);
  }

  /** Phase 2 on threads: the tools finish in whatever order the scheduler picks. */
  method RunInThreads(env: Env, calls: seq<ToolCall>, entries: seq<Entry>, results: array<ToolResult>)
    requires InRange(entries, calls, results[..]) && SlotsDetermine(entries)
    modifies results
    ensures results[..] == ExecAll(env, calls, entries, old(results[..]))
  {
    var running := entries;
    ghost var before := results[..];
    ghost var finished: seq<Entry> := [];
    while running != []
      invariant Underway(calls, entries, finished, running, before)
      invariant results[..] == ExecAll(env, calls, finished, before)
      decreases |running|
    {
      var k :| 0 <= k < |running|;
      var e := running[k];
      ExecOneMore(env, calls, finished, e, before);
      OneMoreFinished(calls, entries, finished, running, before, k);
      results[e.slot] := env.exec(calls[e.call]);
      finished := finished + [e];
      running := running[..k] + running[k + 1..];
    }
    assert multiset(finished) == multiset(entries);
    OrderDoesNotMatter(env, calls, entries, finished, before);
  }

  /** One call, as a step of pre-screening from state s to state t. */
  method ScreenStep(env: Env, orch: Orchestration, calls: seq<ToolCall>, i: nat, results: array<ToolResult>,
                    indices: array?<int>, taken: nat, already: seq<Entry>, ghost s: Screen, ghost end: Screen)
    returns (count: nat, approved: seq<Entry>, status: int, ghost t: Screen)
    requires Sized(|calls|, results, indices) && i < |calls|
    requires s == ScreenNow(orch, results, indices, taken, already, 0)
    requires EndsIn(env, calls, indices != null, i, s, end)
    modifies orch, results, indices
    ensures t == ScreenNow(orch, results, indices, count, approved, status)
    ensures EndsIn(env, calls, indices != null, i + 1, t, end)
  {
    ScreenFromNext(env, calls, indices != null, i, s);
    count, approved, status := ScreenCall(env, orch, calls, i, results, indices, taken, already);
    t := ScreenOne(env, calls, indices != null, i, s);
  }

  /** Phase 1. */
  method PreScreen(env: Env, orch: Orchestration, calls: seq<ToolCall>, results: array<ToolResult>,
                   indices: array?<int>)
    returns (count: nat, approved: seq<Entry>, status: int)
    requires Sized(|calls|, results, indices) && results[..] == seq(|calls|, _ => UNFILLED)
    modifies orch, results, indices
    ensures ScreenNow(orch, results, indices, count, approved, status)
            == old(ScreenAll(env, calls, indices != null, Contents(indices), orch.tracker, orch.spawned))
  {
    ghost var start := ScreenNow(orch, results, indices, 0, [], 0);
    assert start == Screen(Fresh(|calls|, Contents(indices)), orch.tracker, orch.spawned, [], 0);
    count, approved, status := ScreenRest(env, orch, calls, results, indices,
                                          ScreenFrom(env, calls, indices != null, 0, start));
  }

  /** The loop, from its first call on. */
  method ScreenRest(env: Env, orch: Orchestration, calls: seq<ToolCall>, results: array<ToolResult>,
                    indices: array?<int>, ghost end: Screen)
    returns (count: nat, approved: seq<Entry>, status: int)
    requires Sized(|calls|, results, indices)
    requires EndsIn(env, calls, indices != null, 0, ScreenNow(orch, results, indices, 0, [], 0), end)
    modifies orch, results, indices
    ensures ScreenNow(orch, results, indices, count, approved, status) == end
  {
    count, approved, status := 0, [], 0;
    var i := 0;
    ghost var s := ScreenNow(orch, results, indices, 0, [], 0);
    while i < |calls| && status == 0
      invariant i <= |calls| && s == ScreenNow(orch, results, indices, count, approved, status)
      invariant EndsIn(env, calls, indices != null, i, s, end)
    {
      count, approved, status, s := ScreenStep(env, orch, calls, i, results, indices, count, approved, s, end);
      i := i + 1;
    }
    EndsHere(env, calls, indices != null, i, s, end);
  }

  /** Phase 2: threads for two or more tools that may all run in them, otherwise one after another. */
  method RunApproved(env: Env, calls: seq<ToolCall>, approved: seq<Entry>, results: array<ToolResult>)
    requires InRange(approved, calls, results[..]) && SlotsDetermine(approved)
    modifies results
    ensures results[..] == ExecAll(env, calls, approved, old(results[..]))
  {
    var allThreadSafe := forall k :: 0 <= k < |approved| ==> env.threadSafe(calls[approved[k].call].name);
    if |approved| >= 2 && allThreadSafe {
      RunInThreads(env, calls, approved, results);
    } else {
      RunSerially(env, calls, approved, results);
    }
  }

  /** tool_batch_execute. The caller passes a cleared results array, and an index array for compact mode or null for
      direct mode. */
  method Execute(env: Env, orch: Orchestration, calls: seq<ToolCall>, results: array<ToolResult>,
                 indices: array?<int>)
    returns (count: nat, status: int)
    requires Sized(|calls|, results, indices) && results[..] == seq(|calls|, _ => UNFILLED)
    modifies orch, results, indices
    ensures var o := old(Batch(env, calls, indices != null, Contents(indices), orch.tracker, orch.spawned));
            && Now(results, indices, count) == o.slots && status == o.status
            && orch.tracker == o.tracker && orch.spawned == o.spawned
  {
    ScreenAllOk(env, calls, indices != null, Contents(indices), orch.tracker, orch.spawned);
    var approved;
    count, approved, status := PreScreen(env, orch, calls, results, indices);
    if status != 0 || approved == [] {
      return;
    }
    EntriesDetermine(Now(results, indices, count), indices != null, approved);
    RunApproved(env, calls, approved, results);
    if env.pendingAfter {
      status := -2;
    }
  }
}
