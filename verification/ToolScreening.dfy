/** Which calls of a batch run (lib/agent/tool_batch_executor.c), told from the calls and the outside answers alone. */
module ToolScreening {
  import opened Wrappers
  import opened ToolBatch

  /** A batch before it starts: what it is given, and the orchestration context it finds. */
  datatype Job = Job(env: Env, calls: seq<ToolCall>, compact: bool, tracker: seq<string>, spawned: bool)

  /** Compact mode passes over a call without id, with an id tracked before, or with the id of an earlier call. */
  predicate New(b: Job, i: nat)
    requires i < |b.calls|
  {
    !b.compact || (b.calls[i].id.Some? && b.calls[i].id.value !in b.tracker
                   && forall j :: 0 <= j < i ==> b.calls[j].id != b.calls[i].id)
  }

  predicate SecondSubagent(b: Job, i: nat)
    requires i < |b.calls|
  {
    b.calls[i].name == SUBAGENT
    && (b.spawned || exists j :: 0 <= j < i && b.calls[j].name == SUBAGENT && New(b, j))
  }

  /** Pre-screening ends at call i, if it gets there: an interrupt is pending, or the gate is asked and aborts. */
  predicate StopsAt(b: Job, i: nat)
    requires i < |b.calls|
  {
    b.env.pending(i) || (New(b, i) && !SecondSubagent(b, i) && b.env.approval(i).Abort?)
  }

  /** Call i is approved, if pre-screening gets there. */
  predicate Passes(b: Job, i: nat)
    requires i < |b.calls|
  {
    !b.env.pending(i) && New(b, i) && !SecondSubagent(b, i) && b.env.approval(i).Allowed?
  }

  /** The first call at which pre-screening stops, from call i on; the number of calls if there is none. */
  function FirstStop(b: Job, i: nat): (f: nat)
    requires i <= |b.calls|
    ensures i <= f <= |b.calls|
    ensures forall k :: i <= k < f ==> !StopsAt(b, k)
    ensures f < |b.calls| ==> StopsAt(b, f)
    decreases |b.calls| - i
  {
    if i == |b.calls| || StopsAt(b, i) then i else FirstStop(b, i + 1)
  }

  /** The approved calls among the first i. */
  function Approved(b: Job, i: nat): (passed: seq<nat>)
    requires i <= |b.calls|
  {
    if i == 0 then [] else Approved(b, i - 1) + if Passes(b, i - 1) then [i - 1] else []
  }

  lemma {:induction false} ApprovedExact(b: Job, i: nat)
    requires i <= |b.calls|
    ensures forall k: nat :: k in Approved(b, i) <==> k < i && Passes(b, k)
  {
    if i > 0 {
      ApprovedExact(b, i - 1);
    }
  }

  // ----- What pre-screening knows at call i -----

  function TrackerAt(b: Job, i: nat): seq<string>
    requires i <= |b.calls|
  {
    if i == 0 then b.tracker
    else TrackerAt(b, i - 1) + if b.compact && New(b, i - 1) then [b.calls[i - 1].id.value] else []
  }

  function SpawnedAt(b: Job, i: nat): bool
    requires i <= |b.calls|
  {
    if i == 0 then b.spawned else SpawnedAt(b, i - 1) || (b.calls[i - 1].name == SUBAGENT && New(b, i - 1))
  }

  lemma {:induction false} TrackerMeans(b: Job, i: nat, id: string)
    requires i <= |b.calls| && b.compact
    ensures id in TrackerAt(b, i) <==> id in b.tracker || exists j :: 0 <= j < i && b.calls[j].id == Some(id)
  {
    if i > 0 {
      TrackerMeans(b, i - 1, id);
      if b.calls[i - 1].id == Some(id) && !New(b, i - 1) && id !in b.tracker {
        var j :| 0 <= j < i - 1 && b.calls[j].id == b.calls[i - 1].id;
        assert b.calls[j].id == Some(id);
      }
    }
  }

  lemma {:induction false} SpawnedMeans(b: Job, i: nat)
    requires i <= |b.calls|
    ensures SpawnedAt(b, i) <==> b.spawned || exists j :: 0 <= j < i && b.calls[j].name == SUBAGENT && New(b, j)
  {
    if i > 0 {
      SpawnedMeans(b, i - 1);
    }
  }

  lemma NewMeans(b: Job, i: nat)
    requires i < |b.calls|
    ensures New(b, i) <==> !(b.compact && (Seen(TrackerAt(b, i), b.calls[i].id) || b.calls[i].id.None?))
  {
    if b.compact && b.calls[i].id.Some? {
      TrackerMeans(b, i, b.calls[i].id.value);
    }
  }

  function VerdictAt(b: Job, i: nat): Verdict
    requires i < |b.calls|
  {
    Decide(b.env, b.calls[i], b.compact, i, TrackerAt(b, i), SpawnedAt(b, i))
  }

  /** What the verdict on call i depends on. */
  lemma VerdictMeans(b: Job, i: nat)
    requires i < |b.calls|
    ensures VerdictAt(b, i).Approve? <==> Passes(b, i)
    ensures VerdictAt(b, i).Interrupt? || VerdictAt(b, i).Stop? <==> StopsAt(b, i)
    ensures VerdictAt(b, i).Interrupt? <==> b.env.pending(i)
    ensures !b.env.pending(i) ==> (VerdictAt(b, i).Skip? <==> !New(b, i))
  {
    NewMeans(b, i);
    SpawnedMeans(b, i);
  }

  function CallsOf(approved: seq<Entry>): (calls: seq<nat>)
    ensures |calls| == |approved|
  {
    seq(|approved|, k requires 0 <= k < |approved| => approved[k].call)
  }

  /** Pre-screening has come to call i without a stop. */
  predicate Reached(b: Job, i: nat, s: Screen)
    requires i <= |b.calls|
  {
    && s.status == 0 && Fits(s.slots, b.compact, |b.calls|, i)
    && s.tracker == TrackerAt(b, i) && s.spawned == SpawnedAt(b, i) && CallsOf(s.approved) == Approved(b, i)
  }

  function One(b: Job, i: nat, s: Screen): Screen
    requires i < |b.calls| && Fits(s.slots, b.compact, |b.calls|, i)
  {
    ScreenOne(b.env, b.calls, b.compact, i, s)
  }

  lemma GoesOn(b: Job, i: nat, s: Screen)
    requires i < |b.calls| && Reached(b, i, s) && !StopsAt(b, i)
    ensures Reached(b, i + 1, One(b, i, s))
  {
    VerdictMeans(b, i);
    ScreenOneFits(b.env, b.calls, b.compact, i, s);
    var t := One(b, i, s);
    assert t.tracker == TrackerAt(b, i + 1);
    assert CallsOf(t.approved) == CallsOf(s.approved) + if VerdictAt(b, i).Approve? then [i] else [];
  }

  /** How pre-screening ends: at the first stop, with what was approved before it. */
  predicate EndsAt(b: Job, f: nat, s: Screen)
    requires f <= |b.calls|
  {
    && s.status == (if f == |b.calls| then 0 else if b.env.pending(f) then -2 else -1)
    && CallsOf(s.approved) == Approved(b, f)
    && s.tracker == TrackerAt(b, Taken(b, f)) && s.spawned == SpawnedAt(b, Taken(b, f))
  }

  /** How many calls pre-screening has gone through when it ends at f: an aborted call counts, an interrupted one does
      not. */
  function Taken(b: Job, f: nat): (n: nat)
    requires f <= |b.calls|
    ensures n <= |b.calls|
  {
    if f < |b.calls| && !b.env.pending(f) then f + 1 else f
  }

  /** Pre-screening has come to call i and ends in a state. */
  ghost predicate Underway(b: Job, i: nat, s: Screen, end: Screen) {
    i <= |b.calls| && Reached(b, i, s) && EndsIn(b.env, b.calls, b.compact, i, s, end)
  }

  lemma EndsWithStop(b: Job, i: nat, s: Screen, end: Screen)
    requires i < |b.calls| && Underway(b, i, s, end) && StopsAt(b, i)
    ensures end == One(b, i, s) && EndsAt(b, i, end)
  {
    EndsNext(b.env, b.calls, b.compact, i, s, end);
    StopEnds(b, i, s);
    EndsHere(b.env, b.calls, b.compact, i + 1, One(b, i, s), end);
  }

  lemma PassesOn(b: Job, i: nat, s: Screen, end: Screen) returns (t: Screen)
    requires i < |b.calls| && Underway(b, i, s, end) && !StopsAt(b, i)
    ensures t == One(b, i, s) && Underway(b, i + 1, t, end) && FirstStop(b, i) == FirstStop(b, i + 1)
  {
    t := One(b, i, s);
    EndsNext(b.env, b.calls, b.compact, i, s, end);
    GoesOn(b, i, s);
  }

  lemma {:induction false} ScreenEnds(b: Job, i: nat, s: Screen, end: Screen)
    requires Underway(b, i, s, end)
    ensures EndsAt(b, FirstStop(b, i), end)
    decreases |b.calls| - i
  {
    if i == |b.calls| {
      EndsHere(b.env, b.calls, b.compact, i, s, end);
    } else if StopsAt(b, i) {
      EndsWithStop(b, i, s, end);
    } else {
      var t := PassesOn(b, i, s, end);
      ScreenEnds(b, i + 1, t, end);
    }
  }

  lemma StopEnds(b: Job, i: nat, s: Screen)
    requires i < |b.calls| && Reached(b, i, s) && StopsAt(b, i)
    ensures One(b, i, s).status != 0 && EndsAt(b, i, One(b, i, s))
  {
    VerdictMeans(b, i);
  }

  predicate Sized(b: Job, indices: seq<int>) {
    b.compact ==> |indices| == |b.calls|
  }

  function Screened(b: Job, indices: seq<int>): Screen
    requires Sized(b, indices)
  {
    ScreenAll(b.env, b.calls, b.compact, indices, b.tracker, b.spawned)
  }

  function Done(b: Job, indices: seq<int>): Outcome
    requires Sized(b, indices)
  {
    Batch(b.env, b.calls, b.compact, indices, b.tracker, b.spawned)
  }

  lemma AllScreened(b: Job, indices: seq<int>)
    requires Sized(b, indices)
    ensures EndsAt(b, FirstStop(b, 0), Screened(b, indices))
  {
    var s := Screen(Fresh(|b.calls|, indices), b.tracker, b.spawned, [], 0);
    assert CallsOf([]) == [];
    ScreenEnds(b, 0, s, Screened(b, indices));
  }

  /** The call was run. */
  predicate Ran(o: Outcome, i: nat) {
    exists k :: 0 <= k < |o.executed| && o.executed[k].call == i
  }

  /** A call is run exactly when nothing stops pre-screening and it is approved: it is new, not a second subagent, and
      the gate allows it. */
  lemma RunsIff(b: Job, indices: seq<int>, i: nat)
    requires Sized(b, indices) && i < |b.calls|
    ensures Ran(Done(b, indices), i) <==> FirstStop(b, 0) == |b.calls| && Passes(b, i)
  {
    AllScreened(b, indices);
    BatchShape(b.env, b.calls, b.compact, indices, b.tracker, b.spawned);
    ApprovedExact(b, |b.calls|);
    var s, o := Screened(b, indices), Done(b, indices);
    RanMeans(o, i);
    if s.status == 0 {
      assert CallsOf(o.executed) == Approved(b, |b.calls|);
    }
  }

  lemma RanMeans(o: Outcome, i: nat)
    ensures Ran(o, i) <==> i in CallsOf(o.executed)
  {
    if i in CallsOf(o.executed) {
      var k :| 0 <= k < |o.executed| && CallsOf(o.executed)[k] == i;
      assert o.executed[k].call == i;
    }
    if Ran(o, i) {
      var k :| 0 <= k < |o.executed| && o.executed[k].call == i;
      assert CallsOf(o.executed)[k] == i;
    }
  }

  // ----- Slots left empty -----

  /** A taken slot is an approved entry's exactly when the call it belongs to is approved. */
  lemma SlotOfApproved(slots: Slots, compact: bool, n: nat, approved: seq<Entry>, k: nat)
    requires SlotsOk(slots, compact, n) && EntriesOk(slots, compact, approved) && k < slots.count
    ensures IsApproved(approved, k) <==> CallOf(slots, compact, k) in CallsOf(approved)
  {
    if IsApproved(approved, k) {
      var e :| e in approved && e.slot == k;
      var j :| 0 <= j < |approved| && approved[j] == e;
      assert CallsOf(approved)[j] == CallOf(slots, compact, k);
    }
    if CallOf(slots, compact, k) in CallsOf(approved) {
      var j :| 0 <= j < |approved| && approved[j].call == CallOf(slots, compact, k);
      assert approved[j] in approved && approved[j].slot == k;
    }
  }

  /** A taken slot is left unfilled exactly when its call was approved and a later call stopped pre-screening. */
  lemma UnfilledIff(b: Job, indices: seq<int>, k: nat)
    requires Sized(b, indices) && k < Done(b, indices).slots.count
    requires forall call :: b.env.exec(call) != UNFILLED
    ensures SlotsOk(Done(b, indices).slots, b.compact, |b.calls|)
    ensures var slots := Done(b, indices).slots;
            var i := CallOf(slots, b.compact, k);
            0 <= i < |b.calls|
            && (slots.results[k] == UNFILLED <==> i < FirstStop(b, 0) < |b.calls| && Passes(b, i))
  {
    var s := Screened(b, indices);
    AllScreened(b, indices);
    BatchShape(b.env, b.calls, b.compact, indices, b.tracker, b.spawned);
    BatchFillsSlots(b.env, b.calls, b.compact, indices, b.tracker, b.spawned, k);
    ScreenAllOk(b.env, b.calls, b.compact, indices, b.tracker, b.spawned);
    SlotOfApproved(s.slots, b.compact, |b.calls|, s.approved, k);
    ApprovedExact(b, FirstStop(b, 0));
  }

  /** An approved call owns a slot, also when a stop keeps it from running. */
  lemma PassedOwnsSlot(b: Job, indices: seq<int>, j: nat) returns (k: nat)
    requires Sized(b, indices) && j < FirstStop(b, 0) && Passes(b, j)
    ensures k < Done(b, indices).slots.count && SlotsOk(Done(b, indices).slots, b.compact, |b.calls|)
    ensures CallOf(Done(b, indices).slots, b.compact, k) == j
  {
    var approved := Screened(b, indices).approved;
    AllScreened(b, indices);
    BatchShape(b.env, b.calls, b.compact, indices, b.tracker, b.spawned);
    ScreenAllOk(b.env, b.calls, b.compact, indices, b.tracker, b.spawned);
    ApprovedExact(b, FirstStop(b, 0));
    assert j in CallsOf(approved);
    var e :| 0 <= e < |approved| && CallsOf(approved)[e] == j;
    k := approved[e].slot;
  }

  /** No slot among those counted is empty. */
  predicate AllFilled(slots: Slots)
    requires slots.count <= |slots.results|
  {
    forall k :: 0 <= k < slots.count ==> slots.results[k] != UNFILLED
  }

  /** So every slot counted is filled exactly when no call stops pre-screening after another was approved. In direct
      mode all calls' slots are counted. */
  lemma AllFilledIff(b: Job, indices: seq<int>)
    requires Sized(b, indices) && forall call :: b.env.exec(call) != UNFILLED
    ensures var slots := Done(b, indices).slots;
            slots.count <= |slots.results| == |b.calls| && (!b.compact ==> slots.count == |b.calls|)
            && (AllFilled(slots) <==> !(exists j :: 0 <= j < FirstStop(b, 0) < |b.calls| && Passes(b, j)))
  {
    BatchShape(b.env, b.calls, b.compact, indices, b.tracker, b.spawned);
    var slots := Done(b, indices).slots;
    if j: nat :| j < FirstStop(b, 0) < |b.calls| && Passes(b, j) {
      var k := PassedOwnsSlot(b, indices, j);
      UnfilledIff(b, indices, k);
      assert slots.results[k] == UNFILLED;
    } else {
      forall k | 0 <= k < slots.count
        ensures slots.results[k] != UNFILLED
      {
        UnfilledIff(b, indices, k);
      }
    }
  }

  /** Two calls, the first allowed and the second aborted: the first one's slot stays empty. */
  lemma AbortLeavesSlotEmpty(exec: ToolCall -> ToolResult) returns (b: Job)
    requires forall call :: exec(call) != UNFILLED
    ensures !b.compact && |b.calls| == 2 && b.env.exec == exec
    ensures b.env.approval(0) == Allowed && b.env.approval(1) == Abort && !b.env.pending(0) && !b.env.pending(1)
    ensures |Done(b, []).slots.results| == 2 && Done(b, []).slots.results[0] == UNFILLED
    ensures Done(b, []).status == -1 && Done(b, []).slots.count == 2
  {
    var env := Env(_ => false, false, (i: nat) => if i == 0 then Allowed else Abort, _ => false, exec);
    b := Job(env, [ToolCall(Some("1"), "shell", ""), ToolCall(Some("2"), "shell", "")], false, [], false);
    assert "shell"[1] != SUBAGENT[1];
    assert Passes(b, 0) && StopsAt(b, 1) && FirstStop(b, 1) == 1;
    AllScreened(b, []);
    BatchShape(env, b.calls, false, [], [], false);
    UnfilledIff(b, [], 0);
  }
}
