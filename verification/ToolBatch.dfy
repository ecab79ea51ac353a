/** Running one batch of tool calls (lib/agent/tool_batch_executor.c) under the orchestration context that tracks
    executed ids and limits subagents (lib/agent/tool_orchestration.c). */
module ToolBatch {
  import opened Wrappers

  datatype ToolCall = ToolCall(id: Option<string>, name: string, arguments: string)

  /** A slot of the results array; a fresh slot holds nothing. */
  datatype ToolResult = ToolResult(callId: Option<string>, text: Option<string>, success: bool)

  const UNFILLED := ToolResult(None, None, false)

  const SUBAGENT := "subagent"
  const INTERRUPTED := "{\"error\": \"interrupted\", \"message\": \"Cancelled by user\"}"
  const ABORTED := "{\"error\": \"aborted\", \"message\": \"Operation aborted by user\"}"
  const DUPLICATE_SUBAGENT :=
    "{\"error\": \"duplicate_subagent\", \"message\": "
    + "\"Only one subagent can be spawned per turn. A subagent was already spawned in this batch.\"}"

  datatype Approval = Allowed | Blocked(text: string) | Abort

  /** What the batch does not decide itself: whether an interrupt is pending when call i is looked at and after the
      tools have run, what the approval gate says about call i, which tools may run in threads, and the result of a
      tool, which depends on its own call only. */
  datatype Env = Env(pending: nat -> bool, pendingAfter: bool, approval: nat -> Approval, threadSafe: string -> bool,
                     exec: ToolCall -> ToolResult)

  // ----- The orchestration context -----

  predicate Seen(tracker: seq<string>, id: Option<string>) {
    id.Some? && id.value in tracker
  }

  class Orchestration {
    var tracker: seq<string>
    var spawned: bool

    constructor ()
      ensures tracker == [] && !spawned
    {
      tracker, spawned := [], false;
    }

    method IsDuplicate(id: Option<string>) returns (dup: bool)
      ensures dup <==> Seen(tracker, id)
    {
      if id.None? {
        return false;
      }
      for i := 0 to |tracker|
        invariant id.value !in tracker[..i]
      {
        if tracker[i] == id.value {
          return true;
        }
      }
      dup := false;
    }

    method MarkExecuted(id: Option<string>) returns (ok: bool)
      modifies this`tracker
      ensures ok <==> id.Some?
      ensures tracker == if id.Some? then old(tracker) + [id.value] else old(tracker)
    {
      if id.None? {
        return false;
      }
      tracker := tracker + [id.value];
      ok := true;
    }

    method CanSpawnSubagent(name: string) returns (ok: bool)
      modifies this`spawned
      ensures ok <==> !(name == SUBAGENT && old(spawned))
      ensures spawned <==> old(spawned) || name == SUBAGENT
    {
      if name != SUBAGENT {
        return true;
      }
      if spawned {
        return false;
      }
      spawned := true;
      ok := true;
    }

    method ResetBatch()
      modifies this`spawned
      ensures !spawned
    {
      spawned := false;
    }
  }

  // ----- Pre-screening -----

  /** The results array, the index array (used in compact mode only) and the number of slots taken. */
  datatype Slots = Slots(results: seq<ToolResult>, indices: seq<int>, count: nat)

  /** A call that passed pre-screening, and the slot its result goes to. */
  datatype Entry = Entry(call: nat, slot: nat)

  datatype Screen = Screen(slots: Slots, tracker: seq<string>, spawned: bool, approved: seq<Entry>, status: int)

  function Failure(call: ToolCall, text: string): ToolResult {
    ToolResult(call.id, Some(text), false)
  }

  /** There is room for the slot that call i would take. */
  predicate Fits(slots: Slots, compact: bool, n: nat, i: nat) {
    && |slots.results| == n && (compact ==> |slots.indices| == n)
    && slots.count <= i && (!compact ==> slots.count == i)
  }

  function SlotFor(slots: Slots, compact: bool, i: nat): nat {
    if compact then slots.count else i
  }

  /** Call i takes a slot, with this result in it. */
  function Put(slots: Slots, compact: bool, n: nat, i: nat, r: ToolResult): Slots
    requires Fits(slots, compact, n, i) && i < n
  {
    Slots(slots.results[SlotFor(slots, compact, i) := r],
          if compact then slots.indices[slots.count := i] else slots.indices,
          slots.count + 1)
  }

  /** Call i takes a slot whose result is left for its tool to fill. */
  function Reserve(slots: Slots, compact: bool, n: nat, i: nat): Slots
    requires Fits(slots, compact, n, i) && i < n
  {
    slots.(indices := if compact then slots.indices[slots.count := i] else slots.indices, count := slots.count + 1)
  }

  function FillInterrupted(calls: seq<ToolCall>, compact: bool, tracker: seq<string>, j: nat, slots: Slots): Slots
    requires j <= |calls| && Fits(slots, compact, |calls|, j)
    decreases |calls| - j
  {
    if j == |calls| then slots
    else if compact && Seen(tracker, calls[j].id) then FillInterrupted(calls, compact, tracker, j + 1, slots)
    else
      FillInterrupted(calls, compact, tracker, j + 1, Put(slots, compact, |calls|, j, Failure(calls[j], INTERRUPTED)))
  }

  /** In direct mode an abort fills every later slot too. */
  function FillAborted(calls: seq<ToolCall>, j: nat, slots: Slots): Slots
    requires j <= |calls| && Fits(slots, false, |calls|, j)
    decreases |calls| - j
  {
    if j == |calls| then slots
    else FillAborted(calls, j + 1, Put(slots, false, |calls|, j, Failure(calls[j], ABORTED)))
  }

  datatype Verdict = Interrupt | Skip | Refuse(text: string) | Stop | Approve

  function Decide(env: Env, call: ToolCall, compact: bool, i: nat, tracker: seq<string>, spawned: bool): Verdict {
    if env.pending(i) then Interrupt
    else if compact && (Seen(tracker, call.id) || call.id.None?) then Skip
    else if call.name == SUBAGENT && spawned then Refuse(DUPLICATE_SUBAGENT)
    else GateVerdict(env.approval(i))
  }

  function GateVerdict(a: Approval): Verdict {
    match a
    case Abort => Stop
    case Blocked(text) => Refuse(text)
    case Allowed => Approve
  }

  /** The slots after call i has got its verdict; tracker is the one before it. */
  function Settle(v: Verdict, calls: seq<ToolCall>, compact: bool, tracker: seq<string>, i: nat, slots: Slots): Slots
    requires i < |calls| && Fits(slots, compact, |calls|, i)
  {
    match v
    case Interrupt => FillInterrupted(calls, compact, tracker, i, slots)
    case Skip => slots
    case Refuse(text) => Put(slots, compact, |calls|, i, Failure(calls[i], text))
    case Approve => Reserve(slots, compact, |calls|, i)
    case Stop =>
      var put := Put(slots, compact, |calls|, i, Failure(calls[i], ABORTED));
      if compact then put else FillAborted(calls, i + 1, put)
  }

  /** What pre-screening does with call i. A status other than 0 ends it. */
  function ScreenOne(env: Env, calls: seq<ToolCall>, compact: bool, i: nat, s: Screen): Screen
    requires i < |calls| && Fits(s.slots, compact, |calls|, i)
  {
    var call := calls[i];
    var v := Decide(env, call, compact, i, s.tracker, s.spawned);
    var taken := !v.Interrupt? && !v.Skip?;
    Screen(Settle(v, calls, compact, s.tracker, i, s.slots),
           if taken && compact then s.tracker + [call.id.value] else s.tracker,
           s.spawned || (taken && call.name == SUBAGENT),
           if v.Approve? then s.approved + [Entry(i, SlotFor(s.slots, compact, i))] else s.approved,
           if v.Interrupt? then -2 else if v.Stop? then -1 else s.status)
  }

  lemma ScreenOneFits(env: Env, calls: seq<ToolCall>, compact: bool, i: nat, s: Screen)
    requires i < |calls| && Fits(s.slots, compact, |calls|, i) && s.status == 0
    ensures var t := ScreenOne(env, calls, compact, i, s);
            t.status == 0 ==> Fits(t.slots, compact, |calls|, i + 1)
  {
  }

  function ScreenFrom(env: Env, calls: seq<ToolCall>, compact: bool, i: nat, s: Screen): Screen
    requires i <= |calls| && (s.status == 0 ==> Fits(s.slots, compact, |calls|, i))
    decreases |calls| - i
  {
    if i == |calls| || s.status != 0 then s
    else
      ScreenOneFits(env, calls, compact, i, s);
      ScreenFrom(env, calls, compact, i + 1, ScreenOne(env, calls, compact, i, s))
  }

  /** Pre-screening goes on from the next call. */
  lemma ScreenFromNext(env: Env, calls: seq<ToolCall>, compact: bool, i: nat, s: Screen)
    requires i < |calls| && Fits(s.slots, compact, |calls|, i) && s.status == 0
    ensures var t := ScreenOne(env, calls, compact, i, s);
            && (t.status == 0 ==> Fits(t.slots, compact, |calls|, i + 1))
            && ScreenFrom(env, calls, compact, i, s) == ScreenFrom(env, calls, compact, i + 1, t)
  {
  }

  lemma ScreenFromEnds(env: Env, calls: seq<ToolCall>, compact: bool, i: nat, s: Screen)
    requires i <= |calls| && (s.status == 0 ==> Fits(s.slots, compact, |calls|, i))
    requires i == |calls| || s.status != 0
    ensures ScreenFrom(env, calls, compact, i, s) == s
  {
  }

  /** Pre-screening from call i on ends in a state. */
  ghost predicate EndsIn(env: Env, calls: seq<ToolCall>, compact: bool, i: nat, s: Screen, end: Screen) {
    && i <= |calls| && (s.status == 0 ==> Fits(s.slots, compact, |calls|, i))
    && ScreenFrom(env, calls, compact, i, s) == end
  }

  lemma EndsHere(env: Env, calls: seq<ToolCall>, compact: bool, i: nat, s: Screen, end: Screen)
    requires EndsIn(env, calls, compact, i, s, end) && (i == |calls| || s.status != 0)
    ensures s == end
  {
    ScreenFromEnds(env, calls, compact, i, s);
  }

  lemma EndsNext(env: Env, calls: seq<ToolCall>, compact: bool, i: nat, s: Screen, end: Screen)
    requires EndsIn(env, calls, compact, i, s, end) && i < |calls| && s.status == 0
    ensures EndsIn(env, calls, compact, i + 1, ScreenOne(env, calls, compact, i, s), end)
  {
    ScreenFromNext(env, calls, compact, i, s);
  }

  function Fresh(n: nat, indices: seq<int>): Slots {
    Slots(seq(n, _ => UNFILLED), indices, 0)
  }

  function ScreenAll(env: Env, calls: seq<ToolCall>, compact: bool, indices: seq<int>, tracker: seq<string>,
                     spawned: bool): Screen
    requires compact ==> |indices| == |calls|
  {
    ScreenFrom(env, calls, compact, 0, Screen(Fresh(|calls|, indices), tracker, spawned, [], 0))
  }

  // ----- Execution -----

  /** Run the tools of these entries, in this order. */
  function ExecAll(env: Env, calls: seq<ToolCall>, entries: seq<Entry>, results: seq<ToolResult>): (r: seq<ToolResult>)
    requires forall k :: 0 <= k < |entries| ==> entries[k].call < |calls| && entries[k].slot < |results|
    ensures |r| == |results|
    decreases |entries|
  {
    if entries == [] then results
    else
      var last := entries[|entries| - 1];
      ExecAll(env, calls, entries[..|entries| - 1], results)[last.slot := env.exec(calls[last.call])]
  }

  /** executed lists the entries whose tools were run. */
  datatype Outcome = Outcome(slots: Slots, tracker: seq<string>, spawned: bool, executed: seq<Entry>, status: int)

  function Batch(env: Env, calls: seq<ToolCall>, compact: bool, indices: seq<int>, tracker: seq<string>,
                 spawned: bool): Outcome
    requires compact ==> |indices| == |calls|
  {
    var s := ScreenAll(env, calls, compact, indices, tracker, spawned);
    ScreenAllOk(env, calls, compact, indices, tracker, spawned);
    if s.status != 0 || s.approved == [] then Outcome(s.slots, s.tracker, s.spawned, [], s.status)
    else
      Outcome(s.slots.(results := ExecAll(env, calls, s.approved, s.slots.results)), s.tracker, s.spawned, s.approved,
              if env.pendingAfter then -2 else 0)
  }

  // ----- Slots -----

  /** The call a taken slot belongs to. */
  function CallOf(slots: Slots, compact: bool, k: nat): int
    requires compact ==> k < |slots.indices|
  {
    if compact then slots.indices[k] else k
  }

  /** Taken slots belong to calls in strictly ascending order. */
  predicate SlotsOk(slots: Slots, compact: bool, n: nat) {
    && |slots.results| == n && (compact ==> |slots.indices| == n) && slots.count <= n
    && (compact ==> forall k :: 0 <= k < slots.count ==> 0 <= slots.indices[k] < n)
    && (compact ==> forall j, k :: 0 <= j < k < slots.count ==> slots.indices[j] < slots.indices[k])
  }

  /** The slots so far belong to calls below i. */
  predicate SlotsBelow(slots: Slots, compact: bool, i: nat) {
    compact && slots.count <= |slots.indices| ==> forall k :: 0 <= k < slots.count ==> slots.indices[k] < i
  }

  /** Approved entries own their slots: distinct, in call order, each the slot of its call. */
  predicate EntriesOk(slots: Slots, compact: bool, approved: seq<Entry>)
    requires compact ==> slots.count <= |slots.indices|
  {
    && (forall k :: 0 <= k < |approved| ==>
                      approved[k].slot < slots.count && CallOf(slots, compact, approved[k].slot) == approved[k].call)
    && (forall j, k :: 0 <= j < k < |approved| ==>
                         approved[j].slot < approved[k].slot && approved[j].call < approved[k].call)
  }

  predicate ScreenOk(s: Screen, compact: bool, n: nat) {
    && SlotsOk(s.slots, compact, n) && EntriesOk(s.slots, compact, s.approved)
    && (!compact && s.status != 0 ==> s.slots.count == n) && -2 <= s.status <= 0
  }

  lemma {:induction false} FillInterruptedOk(calls: seq<ToolCall>, compact: bool, tracker: seq<string>, j: nat,
                                             slots: Slots, approved: seq<Entry>)
    requires j <= |calls| && Fits(slots, compact, |calls|, j)
    requires SlotsOk(slots, compact, |calls|) && SlotsBelow(slots, compact, j) && EntriesOk(slots, compact, approved)
    ensures var t := FillInterrupted(calls, compact, tracker, j, slots);
            && SlotsOk(t, compact, |calls|) && EntriesOk(t, compact, approved)
            && (!compact ==> t.count == |calls|)
    decreases |calls| - j
  {
    if j < |calls| {
      if compact && Seen(tracker, calls[j].id) {
        FillInterruptedOk(calls, compact, tracker, j + 1, slots, approved);
      } else {
        var put := Put(slots, compact, |calls|, j, Failure(calls[j], INTERRUPTED));
        FillInterruptedOk(calls, compact, tracker, j + 1, put, approved);
      }
    }
  }

  lemma {:induction false} FillAbortedOk(calls: seq<ToolCall>, j: nat, slots: Slots)
    requires j <= |calls| && Fits(slots, false, |calls|, j) && SlotsOk(slots, false, |calls|)
    ensures var t := FillAborted(calls, j, slots); SlotsOk(t, false, |calls|) && t.count == |calls|
    decreases |calls| - j
  {
    if j < |calls| {
      FillAbortedOk(calls, j + 1, Put(slots, false, |calls|, j, Failure(calls[j], ABORTED)));
    }
  }

  lemma PutOk(slots: Slots, compact: bool, n: nat, i: nat, r: ToolResult, approved: seq<Entry>)
    requires i < n && Fits(slots, compact, n, i)
    requires SlotsOk(slots, compact, n) && SlotsBelow(slots, compact, i) && EntriesOk(slots, compact, approved)
    ensures var t := Put(slots, compact, n, i, r);
            SlotsOk(t, compact, n) && SlotsBelow(t, compact, i + 1) && EntriesOk(t, compact, approved)
  {
  }

  lemma ReserveOk(slots: Slots, compact: bool, n: nat, i: nat, approved: seq<Entry>)
    requires i < n && Fits(slots, compact, n, i)
    requires SlotsOk(slots, compact, n) && SlotsBelow(slots, compact, i) && EntriesOk(slots, compact, approved)
    requires forall k :: 0 <= k < |approved| ==> approved[k].call < i
    ensures var t := Reserve(slots, compact, n, i);
            && SlotsOk(t, compact, n) && SlotsBelow(t, compact, i + 1)
            && EntriesOk(t, compact, approved + [Entry(i, SlotFor(slots, compact, i))])
  {
  }

  lemma AbortOk(calls: seq<ToolCall>, compact: bool, i: nat, slots: Slots, approved: seq<Entry>)
    requires i < |calls| && Fits(slots, compact, |calls|, i) && SlotsOk(slots, compact, |calls|)
    requires SlotsBelow(slots, compact, i) && EntriesOk(slots, compact, approved)
    ensures var put := Put(slots, compact, |calls|, i, Failure(calls[i], ABORTED));
            var t := if compact then put else FillAborted(calls, i + 1, put);
            SlotsOk(t, compact, |calls|) && EntriesOk(t, compact, approved) && (!compact ==> t.count == |calls|)
  {
    PutOk(slots, compact, |calls|, i, Failure(calls[i], ABORTED), approved);
    if !compact {
      FillAbortedOk(calls, i + 1, Put(slots, compact, |calls|, i, Failure(calls[i], ABORTED)));
    }
  }

  /** Whatever the verdict on call i, the slots stay in order; what stops pre-screening in direct mode takes all. */
  lemma SettleOk(v: Verdict, calls: seq<ToolCall>, compact: bool, tracker: seq<string>, i: nat, slots: Slots,
                 approved: seq<Entry>)
    requires i < |calls| && Fits(slots, compact, |calls|, i) && SlotsOk(slots, compact, |calls|)
    requires SlotsBelow(slots, compact, i) && EntriesOk(slots, compact, approved)
    requires forall k :: 0 <= k < |approved| ==> approved[k].call < i
    ensures var t := Settle(v, calls, compact, tracker, i, slots);
            && SlotsOk(t, compact, |calls|)
            && EntriesOk(t, compact, if v.Approve? then approved + [Entry(i, SlotFor(slots, compact, i))] else approved)
            && (if v.Interrupt? || v.Stop? then !compact ==> t.count == |calls| else SlotsBelow(t, compact, i + 1))
  {
    match v
    case Interrupt => FillInterruptedOk(calls, compact, tracker, i, slots, approved);
    case Skip =>
    case Refuse(text) => PutOk(slots, compact, |calls|, i, Failure(calls[i], text), approved);
    case Approve => ReserveOk(slots, compact, |calls|, i, approved);
    case Stop => AbortOk(calls, compact, i, slots, approved);
  }

  lemma ScreenOneOk(env: Env, calls: seq<ToolCall>, compact: bool, i: nat, s: Screen)
    requires i < |calls| && Fits(s.slots, compact, |calls|, i) && s.status == 0
    requires ScreenOk(s, compact, |calls|) && SlotsBelow(s.slots, compact, i)
    requires forall k :: 0 <= k < |s.approved| ==> s.approved[k].call < i
    ensures var t := ScreenOne(env, calls, compact, i, s);
            && ScreenOk(t, compact, |calls|)
            && (t.status == 0 ==> SlotsBelow(t.slots, compact, i + 1))
            && (t.status == 0 ==> forall k :: 0 <= k < |t.approved| ==> t.approved[k].call < i + 1)
  {
    SettleOk(Decide(env, calls[i], compact, i, s.tracker, s.spawned), calls, compact, s.tracker, i, s.slots,
             s.approved);
  }

  /** What one call keeps, pre-screening keeps: it ends at the last call or at a stop. */
  lemma {:induction false} ScreenInduction(env: Env, calls: seq<ToolCall>, compact: bool, i: nat, s: Screen,
                                           keeps: (nat, Screen) -> bool)
    returns (j: nat)
    requires i <= |calls| && (s.status == 0 ==> Fits(s.slots, compact, |calls|, i)) && keeps(i, s)
    requires forall k: nat, u: Screen {:trigger ScreenOne(env, calls, compact, k, u)} ::
               k < |calls| && u.status == 0 && Fits(u.slots, compact, |calls|, k) && keeps(k, u) ==>
                 keeps(k + 1, ScreenOne(env, calls, compact, k, u))
    ensures var t := ScreenFrom(env, calls, compact, i, s); keeps(j, t) && (j == |calls| || t.status != 0)
    decreases |calls| - i
  {
    if i < |calls| && s.status == 0 {
      ScreenOneFits(env, calls, compact, i, s);
      j := ScreenInduction(env, calls, compact, i + 1, ScreenOne(env, calls, compact, i, s), keeps);
    } else {
      j := i;
    }
  }

  /** Before call i: the slots and approved entries are in order and belong to earlier calls. */
  predicate Screening(calls: seq<ToolCall>, compact: bool, i: nat, s: Screen) {
    && ScreenOk(s, compact, |calls|)
    && (s.status == 0 ==> Fits(s.slots, compact, |calls|, i) && SlotsBelow(s.slots, compact, i)
                          && forall k :: 0 <= k < |s.approved| ==> s.approved[k].call < i)
  }

  lemma ScreeningGoesOn(env: Env, calls: seq<ToolCall>, compact: bool, i: nat, s: Screen)
    requires i < |calls| && s.status == 0 && Screening(calls, compact, i, s)
    ensures Screening(calls, compact, i + 1, ScreenOne(env, calls, compact, i, s))
  {
    ScreenOneFits(env, calls, compact, i, s);
    ScreenOneOk(env, calls, compact, i, s);
  }

  lemma ScreenFromOk(env: Env, calls: seq<ToolCall>, compact: bool, s: Screen)
    requires Screening(calls, compact, 0, s)
    ensures ScreenOk(ScreenFrom(env, calls, compact, 0, s), compact, |calls|)
    ensures !compact ==> ScreenFrom(env, calls, compact, 0, s).slots.count == |calls|
  {
    forall k: nat, u: Screen | k < |calls| && u.status == 0 && Screening(calls, compact, k, u)
      ensures Screening(calls, compact, k + 1, ScreenOne(env, calls, compact, k, u))
    {
      ScreeningGoesOn(env, calls, compact, k, u);
    }
    var j := ScreenInduction(env, calls, compact, 0, s, (k: nat, u: Screen) => Screening(calls, compact, k, u));
  }

  /** Pre-screening gives every approved call a slot of its own. */
  lemma ScreenAllOk(env: Env, calls: seq<ToolCall>, compact: bool, indices: seq<int>, tracker: seq<string>,
                    spawned: bool)
    requires compact ==> |indices| == |calls|
    ensures var s := ScreenAll(env, calls, compact, indices, tracker, spawned);
            ScreenOk(s, compact, |calls|) && (!compact ==> s.slots.count == |calls|)
  {
    ScreenFromOk(env, calls, compact, Screen(Fresh(|calls|, indices), tracker, spawned, [], 0));
  }

  // ----- Order of execution -----

  /** No slot belongs to two entries. */
  predicate SlotsDetermine(entries: seq<Entry>) {
    forall e, f :: e in entries && f in entries && e.slot == f.slot ==> e == f
  }

  predicate InRange(entries: seq<Entry>, calls: seq<ToolCall>, results: seq<ToolResult>) {
    forall k :: 0 <= k < |entries| ==> entries[k].call < |calls| && entries[k].slot < |results|
  }

  lemma {:induction false} ExecAt(env: Env, calls: seq<ToolCall>, entries: seq<Entry>, results: seq<ToolResult>,
                                  slot: nat)
    requires InRange(entries, calls, results) && SlotsDetermine(entries) && slot < |results|
    ensures forall e :: e in entries && e.slot == slot ==>
                          ExecAll(env, calls, entries, results)[slot] == env.exec(calls[e.call])
    ensures (forall e :: e in entries ==> e.slot != slot) ==>
              ExecAll(env, calls, entries, results)[slot] == results[slot]
    decreases |entries|
  {
    if entries != [] {
      var init, last := entries[..|entries| - 1], entries[|entries| - 1];
      ExecAt(env, calls, init, results, slot);
      assert forall e :: e in entries ==> e in init || e == last;
      assert last in entries;
    }
  }

  /** The same tools run in any order fill the results array alike. */
  lemma OrderDoesNotMatter(env: Env, calls: seq<ToolCall>, entries: seq<Entry>, order: seq<Entry>,
                           results: seq<ToolResult>)
    requires InRange(entries, calls, results) && SlotsDetermine(entries)
    requires multiset(order) == multiset(entries)
    ensures InRange(order, calls, results)
    ensures ExecAll(env, calls, order, results) == ExecAll(env, calls, entries, results)
  {
    assert forall e :: e in order <==> e in multiset(order);
    assert forall e :: e in entries <==> e in multiset(entries);
    assert InRange(order, calls, results) by {
      forall k | 0 <= k < |order|
        ensures order[k].call < |calls| && order[k].slot < |results|
      {
        assert order[k] in entries;
      }
    }
    forall slot | 0 <= slot < |results|
      ensures ExecAll(env, calls, order, results)[slot] == ExecAll(env, calls, entries, results)[slot]
    {
      ExecAt(env, calls, entries, results, slot);
      ExecAt(env, calls, order, results, slot);
    }
  }

  lemma EntriesDetermine(slots: Slots, compact: bool, approved: seq<Entry>)
    requires compact ==> slots.count <= |slots.indices|
    requires EntriesOk(slots, compact, approved)
    ensures SlotsDetermine(approved)
  {
  }

  // ----- What each slot holds -----

  predicate IsApproved(approved: seq<Entry>, slot: nat) {
    exists e :: e in approved && e.slot == slot
  }

  /** The slot holds an error for the call it belongs to. */
  ghost predicate HoldsFailure(calls: seq<ToolCall>, slots: Slots, compact: bool, k: nat)
    requires SlotsOk(slots, compact, |calls|) && k < slots.count
  {
    slots.results[k].text.Some?
    && slots.results[k] == Failure(calls[CallOf(slots, compact, k)], slots.results[k].text.value)
  }

  /** Of the slots taken, those of approved calls are unfilled and the others hold an error for their call. */
  ghost predicate Filled(calls: seq<ToolCall>, slots: Slots, compact: bool, approved: seq<Entry>)
    requires SlotsOk(slots, compact, |calls|)
  {
    && (forall k :: slots.count <= k < |calls| ==> slots.results[k] == UNFILLED)
    && forall k :: 0 <= k < slots.count ==>
                     if IsApproved(approved, k) then slots.results[k] == UNFILLED
                     else HoldsFailure(calls, slots, compact, k)
  }

  lemma PutFills(calls: seq<ToolCall>, compact: bool, i: nat, text: string, slots: Slots, approved: seq<Entry>)
    requires i < |calls| && Fits(slots, compact, |calls|, i) && SlotsOk(slots, compact, |calls|)
    requires SlotsBelow(slots, compact, i) && EntriesOk(slots, compact, approved)
    requires Filled(calls, slots, compact, approved)
    ensures var t := Put(slots, compact, |calls|, i, Failure(calls[i], text));
            SlotsOk(t, compact, |calls|) && Filled(calls, t, compact, approved)
  {
    PutOk(slots, compact, |calls|, i, Failure(calls[i], text), approved);
    var t := Put(slots, compact, |calls|, i, Failure(calls[i], text));
    forall k | 0 <= k < t.count
      ensures if IsApproved(approved, k) then t.results[k] == UNFILLED else HoldsFailure(calls, t, compact, k)
    {
      if k < slots.count {
        assert t.results[k] == slots.results[k] && CallOf(t, compact, k) == CallOf(slots, compact, k);
        assert IsApproved(approved, k) || HoldsFailure(calls, slots, compact, k);
      }
    }
  }

  lemma ReserveFills(calls: seq<ToolCall>, compact: bool, i: nat, slots: Slots, approved: seq<Entry>)
    requires i < |calls| && Fits(slots, compact, |calls|, i) && SlotsOk(slots, compact, |calls|)
    requires SlotsBelow(slots, compact, i) && EntriesOk(slots, compact, approved)
    requires forall k :: 0 <= k < |approved| ==> approved[k].call < i
    requires Filled(calls, slots, compact, approved)
    ensures var t := Reserve(slots, compact, |calls|, i);
            SlotsOk(t, compact, |calls|)
            && Filled(calls, t, compact, approved + [Entry(i, SlotFor(slots, compact, i))])
  {
    ReserveOk(slots, compact, |calls|, i, approved);
    var t := Reserve(slots, compact, |calls|, i);
    var entry := Entry(i, SlotFor(slots, compact, i));
    forall k | 0 <= k < t.count
      ensures if IsApproved(approved + [entry], k) then t.results[k] == UNFILLED
              else HoldsFailure(calls, t, compact, k)
    {
      if k == slots.count {
        assert entry in approved + [entry];
      } else {
        assert CallOf(t, compact, k) == CallOf(slots, compact, k);
        assert IsApproved(approved, k) || HoldsFailure(calls, slots, compact, k);
        if IsApproved(approved, k) {
          var e :| e in approved && e.slot == k;
          assert e in approved + [entry];
        }
      }
    }
  }

  lemma {:induction false} FillInterruptedFills(calls: seq<ToolCall>, compact: bool, tracker: seq<string>, j: nat,
                                                slots: Slots, approved: seq<Entry>)
    requires j <= |calls| && Fits(slots, compact, |calls|, j) && SlotsOk(slots, compact, |calls|)
    requires SlotsBelow(slots, compact, j) && EntriesOk(slots, compact, approved)
    requires Filled(calls, slots, compact, approved)
    ensures var t := FillInterrupted(calls, compact, tracker, j, slots);
            SlotsOk(t, compact, |calls|) && Filled(calls, t, compact, approved)
    decreases |calls| - j
  {
    if j < |calls| {
      if compact && Seen(tracker, calls[j].id) {
        FillInterruptedFills(calls, compact, tracker, j + 1, slots, approved);
      } else {
        PutOk(slots, compact, |calls|, j, Failure(calls[j], INTERRUPTED), approved);
        PutFills(calls, compact, j, INTERRUPTED, slots, approved);
        FillInterruptedFills(calls, compact, tracker, j + 1,
                             Put(slots, compact, |calls|, j, Failure(calls[j], INTERRUPTED)), approved);
      }
    }
  }

  lemma {:induction false} FillAbortedFills(calls: seq<ToolCall>, j: nat, slots: Slots, approved: seq<Entry>)
    requires j <= |calls| && Fits(slots, false, |calls|, j) && SlotsOk(slots, false, |calls|)
    requires EntriesOk(slots, false, approved) && Filled(calls, slots, false, approved)
    ensures var t := FillAborted(calls, j, slots);
            SlotsOk(t, false, |calls|) && Filled(calls, t, false, approved)
    decreases |calls| - j
  {
    if j < |calls| {
      PutOk(slots, false, |calls|, j, Failure(calls[j], ABORTED), approved);
      PutFills(calls, false, j, ABORTED, slots, approved);
      FillAbortedFills(calls, j + 1, Put(slots, false, |calls|, j, Failure(calls[j], ABORTED)), approved);
    }
  }

  lemma ScreenOneFills(env: Env, calls: seq<ToolCall>, compact: bool, i: nat, s: Screen)
    requires i < |calls| && Fits(s.slots, compact, |calls|, i) && s.status == 0
    requires ScreenOk(s, compact, |calls|) && SlotsBelow(s.slots, compact, i)
    requires forall k :: 0 <= k < |s.approved| ==> s.approved[k].call < i
    requires Filled(calls, s.slots, compact, s.approved)
    ensures var t := ScreenOne(env, calls, compact, i, s);
            SlotsOk(t.slots, compact, |calls|) && Filled(calls, t.slots, compact, t.approved)
  {
    match Decide(env, calls[i], compact, i, s.tracker, s.spawned)
    case Interrupt => FillInterruptedFills(calls, compact, s.tracker, i, s.slots, s.approved);
    case Skip =>
    case Refuse(text) => PutFills(calls, compact, i, text, s.slots, s.approved);
    case Approve => ReserveFills(calls, compact, i, s.slots, s.approved);
    case Stop =>
      PutOk(s.slots, compact, |calls|, i, Failure(calls[i], ABORTED), s.approved);
      PutFills(calls, compact, i, ABORTED, s.slots, s.approved);
      if !compact {
        FillAbortedFills(calls, i + 1, Put(s.slots, compact, |calls|, i, Failure(calls[i], ABORTED)), s.approved);
      }
  }

  ghost predicate Filling(calls: seq<ToolCall>, compact: bool, i: nat, s: Screen) {
    Screening(calls, compact, i, s) && Filled(calls, s.slots, compact, s.approved)
  }

  lemma FillingGoesOn(env: Env, calls: seq<ToolCall>, compact: bool, i: nat, s: Screen)
    requires i < |calls| && s.status == 0 && Filling(calls, compact, i, s)
    ensures Filling(calls, compact, i + 1, ScreenOne(env, calls, compact, i, s))
  {
    ScreeningGoesOn(env, calls, compact, i, s);
    ScreenOneFills(env, calls, compact, i, s);
  }

  lemma ScreenFromFills(env: Env, calls: seq<ToolCall>, compact: bool, s: Screen)
    requires Filling(calls, compact, 0, s)
    ensures var t := ScreenFrom(env, calls, compact, 0, s);
            SlotsOk(t.slots, compact, |calls|) && Filled(calls, t.slots, compact, t.approved)
  {
    forall k: nat, u: Screen | k < |calls| && u.status == 0 && Filling(calls, compact, k, u)
      ensures Filling(calls, compact, k + 1, ScreenOne(env, calls, compact, k, u))
    {
      FillingGoesOn(env, calls, compact, k, u);
    }
    var j := ScreenInduction(env, calls, compact, 0, s, (k: nat, u: Screen) => Filling(calls, compact, k, u));
  }

  /** Where a batch ends up: taken slots belong to calls in ascending order, each executed entry owns a slot of its
      own, direct mode takes every slot, and a stop during pre-screening runs nothing. */
  lemma BatchShape(env: Env, calls: seq<ToolCall>, compact: bool, indices: seq<int>, tracker: seq<string>,
                   spawned: bool)
    requires compact ==> |indices| == |calls|
    ensures var o := Batch(env, calls, compact, indices, tracker, spawned);
            var s := ScreenAll(env, calls, compact, indices, tracker, spawned);
            && SlotsOk(o.slots, compact, |calls|) && EntriesOk(o.slots, compact, o.executed)
            && (!compact ==> o.slots.count == |calls|) && -2 <= o.status <= 0
            && (s.status != 0 ==> o.executed == [] && o.status == s.status)
            && (s.status == 0 ==> o.executed == s.approved)
            && o.slots.indices == s.slots.indices && o.slots.count == s.slots.count
            && o.tracker == s.tracker && o.spawned == s.spawned
  {
    ScreenAllOk(env, calls, compact, indices, tracker, spawned);
  }

  /** What the slots hold at the end: an executed call's slot holds its own tool's result; every other taken slot
      holds an error for its call, but for the slots of calls that were approved before a stop. */
  lemma BatchFillsSlots(env: Env, calls: seq<ToolCall>, compact: bool, indices: seq<int>, tracker: seq<string>,
                        spawned: bool, k: nat)
    requires compact ==> |indices| == |calls|
    requires k < Batch(env, calls, compact, indices, tracker, spawned).slots.count
    ensures var o := Batch(env, calls, compact, indices, tracker, spawned);
            var s := ScreenAll(env, calls, compact, indices, tracker, spawned);
            && SlotsOk(o.slots, compact, |calls|)
            && (IsApproved(o.executed, k) ==>
                  o.slots.results[k] == env.exec(calls[CallOf(o.slots, compact, k)]))
            && (!IsApproved(s.approved, k) ==> HoldsFailure(calls, o.slots, compact, k))
            && (IsApproved(s.approved, k) && s.status != 0 ==> o.slots.results[k] == UNFILLED)
  {
    BatchShape(env, calls, compact, indices, tracker, spawned);
    ScreenAllOk(env, calls, compact, indices, tracker, spawned);
    ScreenFromFills(env, calls, compact, Screen(Fresh(|calls|, indices), tracker, spawned, [], 0));
    var s := ScreenAll(env, calls, compact, indices, tracker, spawned);
    var o := Batch(env, calls, compact, indices, tracker, spawned);
    assert IsApproved(s.approved, k) || HoldsFailure(calls, s.slots, compact, k);
    if o.executed != [] {
      EntriesDetermine(s.slots, compact, s.approved);
      ExecAt(env, calls, s.approved, s.slots.results, k);
    }
  }

  // ----- Ids and subagents -----

  /** The approved calls carry distinct ids, all new to the batch and all tracked now. */
  predicate IdsOk(calls: seq<ToolCall>, before: seq<string>, tracker: seq<string>, approved: seq<Entry>) {
    && before <= tracker
    && (forall k :: 0 <= k < |approved| ==>
                      approved[k].call < |calls| && Seen(tracker, calls[approved[k].call].id)
                      && !Seen(before, calls[approved[k].call].id))
    && (forall j, k :: 0 <= j < k < |approved| ==> calls[approved[j].call].id != calls[approved[k].call].id)
  }

  function Subagents(calls: seq<ToolCall>, approved: seq<Entry>): nat {
    if approved == [] then 0
    else
      var last := approved[|approved| - 1];
      Subagents(calls, approved[..|approved| - 1])
      + (if last.call < |calls| && calls[last.call].name == SUBAGENT then 1 else 0)
  }

  /** At most one approved call is a subagent, and none is if one was spawned before. */
  predicate SubagentsOk(calls: seq<ToolCall>, before: bool, now: bool, approved: seq<Entry>) {
    (before ==> now) && Subagents(calls, approved) <= if now && !before then 1 else 0
  }

  /** Before call i: the approved calls' ids are in order, and every id met so far is tracked. */
  predicate IdsScreened(calls: seq<ToolCall>, before: seq<string>, i: nat, s: Screen) {
    && IdsOk(calls, before, s.tracker, s.approved)
    && (s.status == 0 ==> Fits(s.slots, true, |calls|, i)
                          && forall j :: 0 <= j < i && j < |calls| && calls[j].id.Some? ==>
                                           Seen(s.tracker, calls[j].id))
  }

  lemma IdsScreeningGoesOn(env: Env, calls: seq<ToolCall>, i: nat, s: Screen, before: seq<string>)
    requires i < |calls| && s.status == 0 && IdsScreened(calls, before, i, s)
    ensures IdsScreened(calls, before, i + 1, ScreenOne(env, calls, true, i, s))
  {
    ScreenOneFits(env, calls, true, i, s);
  }

  lemma ScreenFromIds(env: Env, calls: seq<ToolCall>, s: Screen, before: seq<string>)
    requires IdsScreened(calls, before, 0, s)
    ensures var t := ScreenFrom(env, calls, true, 0, s);
            && IdsOk(calls, before, t.tracker, t.approved)
            && (t.status == 0 ==> forall j :: 0 <= j < |calls| && calls[j].id.Some? ==> Seen(t.tracker, calls[j].id))
  {
    forall k: nat, u: Screen | k < |calls| && u.status == 0 && IdsScreened(calls, before, k, u)
      ensures IdsScreened(calls, before, k + 1, ScreenOne(env, calls, true, k, u))
    {
      IdsScreeningGoesOn(env, calls, k, u, before);
    }
    var j := ScreenInduction(env, calls, true, 0, s, (k: nat, u: Screen) => IdsScreened(calls, before, k, u));
  }

  /** A screen whose approved calls are so. */
  predicate ScreenSubagentsOk(calls: seq<ToolCall>, before: bool, s: Screen) {
    SubagentsOk(calls, before, s.spawned, s.approved)
  }

  lemma ScreenOneSubagents(env: Env, calls: seq<ToolCall>, compact: bool, i: nat, s: Screen, before: bool)
    requires i < |calls| && s.status == 0 && Fits(s.slots, compact, |calls|, i)
    requires ScreenSubagentsOk(calls, before, s)
    ensures ScreenSubagentsOk(calls, before, ScreenOne(env, calls, compact, i, s))
  {
    var e := Entry(i, SlotFor(s.slots, compact, i));
    assert (s.approved + [e])[..|s.approved|] == s.approved;
  }

  lemma ScreenFromSubagents(env: Env, calls: seq<ToolCall>, compact: bool, s: Screen, before: bool)
    requires (s.status == 0 ==> Fits(s.slots, compact, |calls|, 0)) && ScreenSubagentsOk(calls, before, s)
    ensures ScreenSubagentsOk(calls, before, ScreenFrom(env, calls, compact, 0, s))
  {
    forall k: nat, u: Screen | k < |calls| && u.status == 0 && Fits(u.slots, compact, |calls|, k)
                               && ScreenSubagentsOk(calls, before, u)
      ensures ScreenSubagentsOk(calls, before, ScreenOne(env, calls, compact, k, u))
    {
      ScreenOneSubagents(env, calls, compact, k, u, before);
    }
    var j := ScreenInduction(env, calls, compact, 0, s, (_: nat, u: Screen) => ScreenSubagentsOk(calls, before, u));
  }

  /** In compact mode a batch runs no id that was tracked before it and none twice, tracks every id it runs, and when
      it is not stopped has tracked every id it was given. */
  lemma BatchRunsNewIds(env: Env, calls: seq<ToolCall>, indices: seq<int>, tracker: seq<string>, spawned: bool)
    requires |indices| == |calls|
    ensures var o := Batch(env, calls, true, indices, tracker, spawned);
            && IdsOk(calls, tracker, o.tracker, o.executed)
            && (ScreenAll(env, calls, true, indices, tracker, spawned).status == 0 ==>
                  forall j :: 0 <= j < |calls| && calls[j].id.Some? ==> Seen(o.tracker, calls[j].id))
  {
    ScreenFromIds(env, calls, Screen(Fresh(|calls|, indices), tracker, spawned, [], 0), tracker);
  }

  /** Each batch lets at most one subagent call through. */
  lemma BatchRunsOneSubagent(env: Env, calls: seq<ToolCall>, compact: bool, indices: seq<int>, tracker: seq<string>,
                             spawned: bool)
    requires compact ==> |indices| == |calls|
    ensures var o := Batch(env, calls, compact, indices, tracker, spawned);
            SubagentsOk(calls, spawned, o.spawned, o.executed)
  {
    ScreenFromSubagents(env, calls, compact, Screen(Fresh(|calls|, indices), tracker, spawned, [], 0), spawned);
  }
}
