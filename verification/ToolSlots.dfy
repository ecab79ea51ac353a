/** What a batch leaves behind (lib/agent/tool_batch_executor.c), call by call: which calls own a slot, where, and what
    it holds; the status, and the tracker. */
module ToolSlots {
  import opened Wrappers
  import opened ToolBatch
  import opened ToolScreening

  /** The id of call j was tracked before the batch or belongs to one of the calls before f. */
  predicate KnownAt(b: Job, f: nat, j: nat)
    requires f <= |b.calls| && j < |b.calls|
  {
    b.calls[j].id.Some?
    && (b.calls[j].id.value in b.tracker || exists k :: 0 <= k < f && b.calls[k].id == b.calls[j].id)
  }

  /** With pre-screening ending at f, call j owns a slot: before f if it is new; from f on, in direct mode always, and
      in compact mode if the end is an interrupt and its id is not known yet, or if it is the aborted call itself. */
  predicate Owns(b: Job, f: nat, j: nat)
    requires f <= |b.calls| && j < |b.calls|
  {
    if j < f then New(b, j)
    else !b.compact || (if b.env.pending(f) then !KnownAt(b, f, j) else j == f)
  }

  /** Where it is: slots are taken in call order. */
  function SlotAt(b: Job, f: nat, j: nat): (k: nat)
    requires f <= |b.calls| && j <= |b.calls|
    ensures k <= j
  {
    if j == 0 then 0 else SlotAt(b, f, j - 1) + if Owns(b, f, j - 1) then 1 else 0
  }

  /** What it holds before any tool has run. */
  function HeldAt(b: Job, f: nat, j: nat): ToolResult
    requires f <= |b.calls| && j < |b.calls|
  {
    if j < f then
      if SecondSubagent(b, j) then Failure(b.calls[j], DUPLICATE_SUBAGENT)
      else if b.env.approval(j).Blocked? then Failure(b.calls[j], b.env.approval(j).text)
      else UNFILLED
    else Failure(b.calls[j], if b.env.pending(f) then INTERRUPTED else ABORTED)
  }

  predicate Holds(b: Job, f: nat, slots: Slots, j: nat)
    requires f <= |b.calls| && j < |b.calls|
  {
    var k := SlotAt(b, f, j);
    && k < slots.count && k < |slots.results| && (b.compact ==> k < |slots.indices|)
    && CallOf(slots, b.compact, k) == j && slots.results[k] == HeldAt(b, f, j)
  }

  /** The slots tell what became of the first i calls. */
  predicate Tells(b: Job, f: nat, slots: Slots, i: nat)
    requires f <= |b.calls| && i <= |b.calls|
  {
    && |slots.results| == |b.calls| && (b.compact ==> |slots.indices| == |b.calls|)
    && slots.count == SlotAt(b, f, i)
    && (forall k :: slots.count <= k < |slots.results| ==> slots.results[k] == UNFILLED)
    && forall j :: 0 <= j < i && Owns(b, f, j) ==> Holds(b, f, slots, j)
  }

  lemma {:induction false} DirectSlots(b: Job, f: nat, j: nat)
    requires !b.compact && f <= |b.calls| && j <= |b.calls|
    ensures SlotAt(b, f, j) == j
  {
    if j > 0 {
      DirectSlots(b, f, j - 1);
    }
  }

  lemma {:induction false} SlotsAscend(b: Job, f: nat, j: nat, i: nat)
    requires f <= |b.calls| && j < i <= |b.calls| && Owns(b, f, j)
    ensures SlotAt(b, f, j) < SlotAt(b, f, i)
    decreases i
  {
    if j < i - 1 {
      SlotsAscend(b, f, j, i - 1);
    }
  }

  lemma TellsFits(b: Job, f: nat, slots: Slots, i: nat)
    requires f <= |b.calls| && i <= |b.calls| && Tells(b, f, slots, i)
    ensures Fits(slots, b.compact, |b.calls|, i)
  {
    if !b.compact {
      DirectSlots(b, f, i);
    }
  }

  lemma TellsSkipped(b: Job, f: nat, slots: Slots, i: nat)
    requires f <= |b.calls| && i < |b.calls| && Tells(b, f, slots, i) && !Owns(b, f, i)
    ensures Tells(b, f, slots, i + 1)
  {
  }

  /** Slots that call i has taken, with that result in its own. */
  predicate TookSlot(b: Job, i: nat, slots: Slots, more: Slots, r: ToolResult) {
    && slots.count < |slots.results| && more.count == slots.count + 1
    && more.results == slots.results[slots.count := r]
    && (b.compact ==> slots.count < |slots.indices| && more.indices == slots.indices[slots.count := i])
  }

  lemma TellsTaken(b: Job, f: nat, slots: Slots, i: nat, more: Slots)
    requires f <= |b.calls| && i < |b.calls| && Tells(b, f, slots, i) && Owns(b, f, i)
    requires TookSlot(b, i, slots, more, HeldAt(b, f, i))
    ensures Tells(b, f, more, i + 1)
  {
    if !b.compact {
      DirectSlots(b, f, i);
    }
    forall j | 0 <= j < i + 1 && Owns(b, f, j)
      ensures Holds(b, f, more, j)
    {
      if j < i {
        assert Holds(b, f, slots, j);
      }
    }
  }

  lemma PutTakes(b: Job, f: nat, slots: Slots, i: nat, r: ToolResult)
    requires f <= |b.calls| && i < |b.calls| && Tells(b, f, slots, i)
    ensures Fits(slots, b.compact, |b.calls|, i)
    ensures TookSlot(b, i, slots, Put(slots, b.compact, |b.calls|, i, r), r)
  {
    TellsFits(b, f, slots, i);
  }

  lemma ReserveTakes(b: Job, f: nat, slots: Slots, i: nat)
    requires f <= |b.calls| && i < |b.calls| && Tells(b, f, slots, i)
    ensures Fits(slots, b.compact, |b.calls|, i)
    ensures TookSlot(b, i, slots, Reserve(slots, b.compact, |b.calls|, i), UNFILLED)
  {
    TellsFits(b, f, slots, i);
    assert slots.results[slots.count := UNFILLED] == slots.results;
  }

  // ----- Pre-screening -----

  /** A call before the first stop. */
  lemma TellsOneMore(b: Job, f: nat, i: nat, s: Screen)
    requires i < f <= |b.calls| && Reached(b, i, s) && !StopsAt(b, i) && Tells(b, f, s.slots, i)
    ensures Tells(b, f, One(b, i, s).slots, i + 1)
  {
    VerdictMeans(b, i);
    if New(b, i) {
      RefusedMeans(b, i);
    }
    var v := VerdictAt(b, i);
    match v
    case Skip => TellsSkipped(b, f, s.slots, i);
    case Refuse(text) =>
      PutTakes(b, f, s.slots, i, Failure(b.calls[i], text));
      TellsTaken(b, f, s.slots, i, One(b, i, s).slots);
    case Approve =>
      ReserveTakes(b, f, s.slots, i);
      TellsTaken(b, f, s.slots, i, One(b, i, s).slots);
    case _ =>
  }

  lemma RefusedMeans(b: Job, i: nat)
    requires i < |b.calls| && !b.env.pending(i) && New(b, i)
    ensures SecondSubagent(b, i) ==> VerdictAt(b, i) == Refuse(DUPLICATE_SUBAGENT)
    ensures !SecondSubagent(b, i) && b.env.approval(i).Blocked? ==> VerdictAt(b, i) == Refuse(b.env.approval(i).text)
  {
    NewMeans(b, i);
    SpawnedMeans(b, i);
  }

  lemma KnownMeans(b: Job, f: nat, j: nat)
    requires b.compact && f <= |b.calls| && j < |b.calls|
    ensures KnownAt(b, f, j) <==> Seen(TrackerAt(b, f), b.calls[j].id)
  {
    if b.calls[j].id.Some? {
      TrackerMeans(b, f, b.calls[j].id.value);
    }
  }

  /** Filling the slots of the calls from j on after an interrupt at f ends with these slots. */
  ghost predicate FillsTo(b: Job, f: nat, j: nat, slots: Slots, end: Slots) {
    && f <= j <= |b.calls| && Fits(slots, b.compact, |b.calls|, j)
    && FillInterrupted(b.calls, b.compact, TrackerAt(b, f), j, slots) == end
  }

  lemma FilledHere(b: Job, f: nat, slots: Slots, end: Slots)
    requires FillsTo(b, f, |b.calls|, slots, end)
    ensures slots == end
  {
  }

  /** What an interrupt at f does with call j. */
  lemma InterruptStep(b: Job, f: nat, j: nat, slots: Slots, end: Slots) returns (next: Slots)
    requires f <= j < |b.calls| && b.env.pending(f) && Tells(b, f, slots, j) && FillsTo(b, f, j, slots, end)
    ensures Tells(b, f, next, j + 1) && FillsTo(b, f, j + 1, next, end)
  {
    if b.compact {
      KnownMeans(b, f, j);
    }
    next := FillNext(b.calls, b.compact, TrackerAt(b, f), j, slots);
    if Owns(b, f, j) {
      PutTakes(b, f, slots, j, Failure(b.calls[j], INTERRUPTED));
      TellsTaken(b, f, slots, j, next);
    } else {
      TellsSkipped(b, f, slots, j);
    }
  }

  lemma FillNext(calls: seq<ToolCall>, compact: bool, tracker: seq<string>, j: nat, slots: Slots) returns (next: Slots)
    requires j < |calls| && Fits(slots, compact, |calls|, j)
    ensures next == if compact && Seen(tracker, calls[j].id) then slots
                    else Put(slots, compact, |calls|, j, Failure(calls[j], INTERRUPTED))
    ensures Fits(next, compact, |calls|, j + 1)
    ensures FillInterrupted(calls, compact, tracker, j, slots) == FillInterrupted(calls, compact, tracker, j + 1, next)
  {
    next := if compact && Seen(tracker, calls[j].id) then slots
            else Put(slots, compact, |calls|, j, Failure(calls[j], INTERRUPTED));
  }

  /** An interrupt at f fills the slots of the calls from j on. */
  lemma {:induction false} InterruptTells(b: Job, f: nat, j: nat, slots: Slots, end: Slots)
    requires f <= j <= |b.calls| && f < |b.calls| && b.env.pending(f) && Tells(b, f, slots, j)
    requires FillsTo(b, f, j, slots, end)
    ensures Tells(b, f, end, |b.calls|)
    decreases |b.calls| - j
  {
    if j < |b.calls| {
      var next := InterruptStep(b, f, j, slots, end);
      InterruptTells(b, f, j + 1, next, end);
    } else {
      FilledHere(b, f, slots, end);
    }
  }

  /** An abort at f leaves the slots after it alone in compact mode, and fills them in direct mode. */
  lemma {:induction false} AbortSkips(b: Job, f: nat, j: nat, slots: Slots)
    requires b.compact && f < j <= |b.calls| && !b.env.pending(f) && Tells(b, f, slots, j)
    ensures Tells(b, f, slots, |b.calls|)
    decreases |b.calls| - j
  {
    if j < |b.calls| {
      TellsSkipped(b, f, slots, j);
      AbortSkips(b, f, j + 1, slots);
    }
  }

  lemma AbortStep(b: Job, f: nat, j: nat, slots: Slots) returns (next: Slots)
    requires !b.compact && f < j < |b.calls| && !b.env.pending(f) && Tells(b, f, slots, j)
    ensures Fits(slots, false, |b.calls|, j) && Fits(next, false, |b.calls|, j + 1)
    ensures Tells(b, f, next, j + 1)
    ensures FillAborted(b.calls, j, slots) == FillAborted(b.calls, j + 1, next)
  {
    TellsFits(b, f, slots, j);
    next := AbortNext(b.calls, j, slots);
    PutTakes(b, f, slots, j, Failure(b.calls[j], ABORTED));
    TellsTaken(b, f, slots, j, next);
  }

  lemma AbortNext(calls: seq<ToolCall>, j: nat, slots: Slots) returns (next: Slots)
    requires j < |calls| && Fits(slots, false, |calls|, j)
    ensures next == Put(slots, false, |calls|, j, Failure(calls[j], ABORTED)) && Fits(next, false, |calls|, j + 1)
    ensures FillAborted(calls, j, slots) == FillAborted(calls, j + 1, next)
  {
    next := Put(slots, false, |calls|, j, Failure(calls[j], ABORTED));
  }

  lemma {:induction false} AbortTells(b: Job, f: nat, j: nat, slots: Slots, end: Slots)
    requires !b.compact && f < j <= |b.calls| && !b.env.pending(f) && Tells(b, f, slots, j)
    requires Fits(slots, false, |b.calls|, j) && FillAborted(b.calls, j, slots) == end
    ensures Tells(b, f, end, |b.calls|)
    decreases |b.calls| - j
  {
    if j < |b.calls| {
      var next := AbortStep(b, f, j, slots);
      AbortTells(b, f, j + 1, next, end);
    }
  }

  /** What the call that stops pre-screening does to the slots. */
  lemma InterruptedSlots(b: Job, f: nat, s: Screen)
    requires f < |b.calls| && Reached(b, f, s) && b.env.pending(f)
    ensures One(b, f, s).slots == FillInterrupted(b.calls, b.compact, TrackerAt(b, f), f, s.slots)
  {
  }

  lemma AbortedSlots(b: Job, f: nat, s: Screen)
    requires f < |b.calls| && Reached(b, f, s) && StopsAt(b, f) && !b.env.pending(f)
    ensures var put := Put(s.slots, b.compact, |b.calls|, f, Failure(b.calls[f], ABORTED));
            One(b, f, s).slots == if b.compact then put else FillAborted(b.calls, f + 1, put)
  {
    VerdictMeans(b, f);
  }

  lemma StopTells(b: Job, f: nat, s: Screen)
    requires f < |b.calls| && Reached(b, f, s) && StopsAt(b, f) && Tells(b, f, s.slots, f)
    ensures Tells(b, f, One(b, f, s).slots, |b.calls|)
  {
    if b.env.pending(f) {
      InterruptedSlots(b, f, s);
      TellsFits(b, f, s.slots, f);
      InterruptTells(b, f, f, s.slots, One(b, f, s).slots);
    } else {
      var r := Failure(b.calls[f], ABORTED);
      var put := Put(s.slots, b.compact, |b.calls|, f, r);
      PutTakes(b, f, s.slots, f, r);
      TellsTaken(b, f, s.slots, f, put);
      AbortedSlots(b, f, s);
      if b.compact {
        AbortSkips(b, f, f + 1, put);
      } else {
        TellsFits(b, f, put, f + 1);
        AbortTells(b, f, f + 1, put, One(b, f, s).slots);
      }
    }
  }

  lemma {:induction false} ScreenTells(b: Job, f: nat, i: nat, s: Screen, end: Screen)
    requires Underway(b, i, s, end) && f == FirstStop(b, i) && Tells(b, f, s.slots, i)
    ensures Tells(b, f, end.slots, |b.calls|)
    decreases |b.calls| - i
  {
    if i == |b.calls| {
      EndsHere(b.env, b.calls, b.compact, i, s, end);
    } else if StopsAt(b, i) {
      StopTells(b, f, s);
      EndsWithStop(b, i, s, end);
    } else {
      TellsOneMore(b, f, i, s);
      var t := PassesOn(b, i, s, end);
      ScreenTells(b, f, i + 1, t, end);
    }
  }

  lemma ScreenedTells(b: Job, indices: seq<int>)
    requires Sized(b, indices)
    ensures Tells(b, FirstStop(b, 0), Screened(b, indices).slots, |b.calls|)
  {
    var s := Screen(Fresh(|b.calls|, indices), b.tracker, b.spawned, [], 0);
    assert CallsOf([]) == [];
    ScreenTells(b, FirstStop(b, 0), 0, s, Screened(b, indices));
  }

  // ----- The whole batch -----

  /** What the slot of call j holds at the end: its tool's own result if it ran. */
  function ResultAt(b: Job, f: nat, j: nat): ToolResult
    requires f <= |b.calls| && j < |b.calls|
  {
    if f == |b.calls| && Passes(b, j) then b.env.exec(b.calls[j]) else HeldAt(b, f, j)
  }

  /** A call owns the slot that its place among the owners says, and it holds the call's own outcome. */
  predicate Answered(b: Job, f: nat, slots: Slots, j: nat)
    requires f <= |b.calls| && j < |b.calls|
  {
    var k := SlotAt(b, f, j);
    && k < slots.count && k < |slots.results| && (b.compact ==> k < |slots.indices|)
    && CallOf(slots, b.compact, k) == j && slots.results[k] == ResultAt(b, f, j)
  }

  /** Every call that owns a slot finds its outcome there, and no other slot is counted: the result of its tool, the
      refusal, the text of the interrupt or the abort that stopped the batch, or nothing if it was approved before the
      stop. */
  lemma SlotsMean(b: Job, indices: seq<int>)
    requires Sized(b, indices)
    ensures var f, slots := FirstStop(b, 0), Done(b, indices).slots;
            && slots.count == SlotAt(b, f, |b.calls|)
            && forall j :: 0 <= j < |b.calls| && Owns(b, f, j) ==> Answered(b, f, slots, j)
  {
    var f := FirstStop(b, 0);
    ScreenedTells(b, indices);
    BatchShape(b.env, b.calls, b.compact, indices, b.tracker, b.spawned);
    forall j | 0 <= j < |b.calls| && Owns(b, f, j)
      ensures Answered(b, f, Done(b, indices).slots, j)
    {
      CallAnswered(b, indices, j);
    }
  }

  /** Running the tools touches the slots of executed calls alone. */
  lemma ExecutedSlot(b: Job, indices: seq<int>, k: nat)
    requires Sized(b, indices) && k < Done(b, indices).slots.count
    ensures var s, o := Screened(b, indices), Done(b, indices);
            && k < |o.slots.results| == |s.slots.results| && (b.compact ==> k < |o.slots.indices|)
            && (IsApproved(o.executed, k) ==>
                  var j := CallOf(o.slots, b.compact, k);
                  0 <= j < |b.calls| && o.slots.results[k] == b.env.exec(b.calls[j]))
            && (!IsApproved(o.executed, k) ==> o.slots.results[k] == s.slots.results[k])
  {
    var s, o := Screened(b, indices), Done(b, indices);
    BatchShape(b.env, b.calls, b.compact, indices, b.tracker, b.spawned);
    ScreenAllOk(b.env, b.calls, b.compact, indices, b.tracker, b.spawned);
    BatchFillsSlots(b.env, b.calls, b.compact, indices, b.tracker, b.spawned, k);
    if o.executed != [] {
      EntriesDetermine(s.slots, b.compact, s.approved);
      ExecAt(b.env, b.calls, s.approved, s.slots.results, k);
    }
  }

  lemma ExecutedIff(b: Job, indices: seq<int>, k: nat)
    requires Sized(b, indices) && k < Done(b, indices).slots.count
    ensures var f, o := FirstStop(b, 0), Done(b, indices);
            && (b.compact ==> k < |o.slots.indices|)
            && var j := CallOf(o.slots, b.compact, k);
               && 0 <= j < |b.calls|
               && (IsApproved(o.executed, k) <==> f == |b.calls| && Passes(b, j))
  {
    var s, o := Screened(b, indices), Done(b, indices);
    AllScreened(b, indices);
    BatchShape(b.env, b.calls, b.compact, indices, b.tracker, b.spawned);
    ScreenAllOk(b.env, b.calls, b.compact, indices, b.tracker, b.spawned);
    SlotOfApproved(s.slots, b.compact, |b.calls|, s.approved, k);
    ApprovedExact(b, FirstStop(b, 0));
  }

  lemma CallAnswered(b: Job, indices: seq<int>, j: nat)
    requires Sized(b, indices) && j < |b.calls| && Owns(b, FirstStop(b, 0), j)
    ensures Answered(b, FirstStop(b, 0), Done(b, indices).slots, j)
  {
    ScreenedTells(b, indices);
    BatchShape(b.env, b.calls, b.compact, indices, b.tracker, b.spawned);
    assert Holds(b, FirstStop(b, 0), Screened(b, indices).slots, j);
    var k := SlotAt(b, FirstStop(b, 0), j);
    ExecutedSlot(b, indices, k);
    ExecutedIff(b, indices, k);
  }

  lemma {:induction false} OwnerOf(b: Job, f: nat, k: nat, i: nat) returns (j: nat)
    requires f <= |b.calls| && i <= |b.calls| && k < SlotAt(b, f, i)
    ensures j < i && Owns(b, f, j) && SlotAt(b, f, j) == k
    decreases i
  {
    if k < SlotAt(b, f, i - 1) {
      j := OwnerOf(b, f, k, i - 1);
    } else {
      j := i - 1;
    }
  }

  /** Every slot counted belongs to a call that owns it. */
  lemma SlotOwner(b: Job, indices: seq<int>, k: nat) returns (j: nat)
    requires Sized(b, indices) && k < Done(b, indices).slots.count
    ensures var slots := Done(b, indices).slots;
            && (b.compact ==> k < |slots.indices|) && CallOf(slots, b.compact, k) == j < |b.calls|
            && Owns(b, FirstStop(b, 0), j) && SlotAt(b, FirstStop(b, 0), j) == k
  {
    SlotsMean(b, indices);
    j := OwnerOf(b, FirstStop(b, 0), k, |b.calls|);
    assert Answered(b, FirstStop(b, 0), Done(b, indices).slots, j);
  }

  /** The status: -2 for an interrupt, during pre-screening or after tools have run, -1 for an abort, and 0
      otherwise. */
  lemma StatusMeans(b: Job, indices: seq<int>)
    requires Sized(b, indices)
    ensures var f := FirstStop(b, 0);
            Done(b, indices).status
            == if f < |b.calls| then if b.env.pending(f) then -2 else -1
               else if b.env.pendingAfter && exists j :: 0 <= j < |b.calls| && Passes(b, j) then -2
               else 0
  {
    AllScreened(b, indices);
    SomeApprovedIff(b, Screened(b, indices));
  }

  lemma SomeApprovedIff(b: Job, s: Screen)
    requires EndsAt(b, FirstStop(b, 0), s)
    ensures s.approved != [] <==> exists j :: 0 <= j < FirstStop(b, 0) && Passes(b, j)
  {
    ApprovedExact(b, FirstStop(b, 0));
    if s.approved != [] {
      assert CallsOf(s.approved)[0] in Approved(b, FirstStop(b, 0));
    }
    if j: nat :| j < FirstStop(b, 0) && Passes(b, j) {
      assert j in Approved(b, FirstStop(b, 0));
    }
  }

  /** What is tracked afterwards in compact mode: what was before, and the ids of all calls that pre-screening went
      through. Direct mode tracks nothing. */
  lemma TrackedMeans(b: Job, indices: seq<int>, id: string)
    requires Sized(b, indices)
    ensures b.compact ==>
              (id in Done(b, indices).tracker
               <==> id in b.tracker || exists j :: 0 <= j < Taken(b, FirstStop(b, 0)) && b.calls[j].id == Some(id))
    ensures !b.compact ==> Done(b, indices).tracker == b.tracker
  {
    AllScreened(b, indices);
    if b.compact {
      TrackerMeans(b, Taken(b, FirstStop(b, 0)), id);
    } else {
      DirectTracker(b, Taken(b, FirstStop(b, 0)));
    }
  }

  lemma {:induction false} DirectTracker(b: Job, i: nat)
    requires !b.compact && i <= |b.calls|
    ensures TrackerAt(b, i) == b.tracker
  {
    if i > 0 {
      DirectTracker(b, i - 1);
    }
  }
}
