/** The async executor (lib/agent/async_executor.c over lib/ipc/pipe_notifier.c): one main thread that calls the
    executor, the worker threads it creates, and anyone who announces a subagent, as interleaved atomic steps. */
module AsyncExecutor {
  import opened Wrappers

  const INTERRUPTED_RESULT := -2

  /** What a worker was created to do: session_process_message on a text, or session_continue. */
  datatype Job = Process(text: string) | Continue

  datatype Event = Complete | Error | Interrupted

  /** A byte in the pipe. The run that a terminal byte belongs to is history, not part of the byte. */
  datatype Item = Terminal(run: nat, event: Event) | SubagentSpawned

  /** Where a worker is. From Locked to Unlocking it holds the mutex. */
  datatype WorkerPc =
    | Entry | InSession | Returned | Locked | Decided | Sent | MessageFreed | Unlocking | Done
    | NoMessage | NoMessageSend | NoMessageClear

  datatype Worker = Worker(job: Job, pc: WorkerPc, result: int, event: Event)

  datatype Owner = Free | Main | Held(run: nat)

  datatype StartPc =
    Check | Join | Lock | Reset | Raise | Unlock | Create | Mark | FailLock | FailLower | FailUnlock | FailContinue

  datatype WaitPc = WaitLock | WaitTest | WaitBlocked | WaitUnlock | WaitGiveUp | WaitJoin

  datatype EndPc = EndCheck | EndRecheck | EndStore | EndJoin | Ended

  /** The point the main thread has reached inside the call it is making. */
  datatype MainPc =
    | Idle | Starting(job: Job, start: StartPc) | CancelCheck | CancelStore | Waiting(wait: WaitPc)
    | Destroying(end: EndPc)

  /** The pipe and its history: the bytes it took, the bytes process_events returned, both in order, and the runs
      whose terminal byte met a full pipe. */
  datatype Pipe = Pipe(unread: seq<Item>, capacity: nat, accepted: seq<Item>, received: seq<Item>, dropped: set<nat>)

  /** workers holds one entry for each successful start or continue, oldest first. cancelledBefore is history: the
      runs with a cancel stored before their worker's check. */
  datatype State = State(
    running: bool, cancelRequested: bool, threadStarted: bool, message: Option<string>, lastResult: int,
    mutex: Owner, main: MainPc, workers: seq<Worker>, pipe: Pipe, cancelledBefore: set<nat>)

  datatype Action =
    | CallStart(text: string) | CallContinue | CallCancel | CallWait | CallProcessEvents | CallDestroy
    | MainStep(choice: bool)            // the main thread goes on; choice settles pthread_create and timeouts
    | WorkerStep(run: nat, result: int) // a worker goes on; result is what its session call returns
    | Announce                          // some thread sends the subagent byte

  function Initial(capacity: nat): State {
    State(false, false, false, None, 0, Free, Idle, [], Pipe([], capacity, [], [], {}), {})
  }

  /** The worker created last; before the first one, a worker that has ended. */
  function Latest(s: State): Worker {
    if s.workers == [] then Worker(Continue, Done, 0, Complete) else s.workers[|s.workers| - 1]
  }

  /** Which terminal event a finished session call leads to. */
  function Classify(cancelled: bool, result: int): Event {
    if cancelled || result == INTERRUPTED_RESULT then Interrupted
    else if result != 0 then Error
    else Complete
  }

  /** A non-blocking one-byte write: a full pipe drops the byte and reports success. */
  function Send(p: Pipe, item: Item): Pipe {
    if |p.unread| < p.capacity then p.(unread := p.unread + [item], accepted := p.accepted + [item])
    else if item.Terminal? then p.(dropped := p.dropped + {item.run})
    else p
  }

  /** process_events takes the oldest byte, if there is one. */
  function Receive(p: Pipe): Pipe {
    if p.unread == [] then p else p.(unread := p.unread[1..], received := p.received + [p.unread[0]])
  }

  /** The worker has not yet looked at cancel_requested. */
  predicate BeforeCheck(pc: WorkerPc) {
    pc.Entry? || pc.InSession? || pc.Returned? || pc.Locked?
  }

  function StoreCancel(s: State): State {
    s.(cancelRequested := true,
       cancelledBefore := if BeforeCheck(Latest(s).pc) && s.workers != [] then s.cancelledBefore + {|s.workers| - 1}
                          else s.cancelledBefore)
  }

  /** Join the latest thread when the handle is marked: possible once that thread has ended. */
  function JoinThread(s: State): Option<State> {
    if !s.threadStarted then Some(s)
    else if s.workers != [] && Latest(s).pc.Done? then Some(s.(threadStarted := false))
    else None
  }

  function Take(s: State, next: MainPc): Option<State> {
    if s.mutex.Free? then Some(s.(mutex := Main, main := next)) else None
  }

  function Then(o: Option<State>, next: MainPc): Option<State> {
    match o case None => None case Some(s) => Some(s.(main := next))
  }

  /** async_executor_start and async_executor_continue. */
  function StartGoesOn(s: State, job: Job, at: StartPc, choice: bool): Option<State> {
    match at
    case Check => Some(s.(main := if s.running then Idle else Starting(job, Join)))
    case Join => Then(JoinThread(s), Starting(job, Lock))
    case Lock => Take(s, Starting(job, Reset))
    case Reset =>
      Some(s.(message := if job.Process? then Some(job.text) else s.message,
              lastResult := 0, cancelRequested := false, main := Starting(job, Raise)))
    case Raise => Some(s.(running := true, main := Starting(job, Unlock)))
    case Unlock => Some(s.(mutex := Free, main := Starting(job, Create)))
    case Create =>
      if choice
      then Some(s.(workers := s.workers + [Worker(job, Entry, 0, Complete)], main := Starting(job, Mark)))
      else Some(s.(main := Starting(job, if job.Process? then FailLock else FailContinue)))
    case Mark => Some(s.(threadStarted := true, main := Idle))
    case FailLock => Take(s, Starting(job, FailLower))
    case FailLower => Some(s.(message := None, running := false, main := Starting(job, FailUnlock)))
    case FailUnlock => Some(s.(mutex := Free, main := Idle))
    case FailContinue => Some(s.(running := false, main := Idle))
  }

  /** async_executor_wait; choice is a wake-up rather than the 30 s timeout. */
  function WaitGoesOn(s: State, at: WaitPc, choice: bool): Option<State> {
    match at
    case WaitLock => Take(s, Waiting(WaitTest))
    case WaitTest =>
      Some(if s.running then s.(mutex := Free, main := Waiting(WaitBlocked)) else s.(main := Waiting(WaitUnlock)))
    case WaitBlocked => Take(s, Waiting(if choice then WaitTest else WaitGiveUp))
    case WaitUnlock => Some(s.(mutex := Free, main := Waiting(WaitJoin)))
    case WaitGiveUp => Some(s.(mutex := Free, main := Idle))
    case WaitJoin => Then(JoinThread(s), Idle)
  }

  /** async_executor_destroy, with the cancel it makes. */
  function DestroyGoesOn(s: State, at: EndPc): Option<State> {
    match at
    case EndCheck => Some(s.(main := Destroying(if s.running then EndRecheck else EndJoin)))
    case EndRecheck => Some(s.(main := Destroying(if s.running then EndStore else EndJoin)))
    case EndStore => Some(StoreCancel(s).(main := Destroying(EndJoin)))
    case EndJoin => Then(JoinThread(s), Destroying(Ended))
    case Ended => None
  }

  function MainGoesOn(s: State, choice: bool): Option<State> {
    match s.main
    case Idle => None
    case Starting(job, at) => StartGoesOn(s, job, at, choice)
    case CancelCheck => Some(s.(main := if s.running then CancelStore else Idle))
    case CancelStore => Some(StoreCancel(s).(main := Idle))
    case Waiting(at) => WaitGoesOn(s, at, choice)
    case Destroying(at) => DestroyGoesOn(s, at)
  }

  function SetWorker(s: State, r: nat, w: Worker): State
    requires r < |s.workers|
  {
    s.(workers := s.workers[r := w])
  }

  /** executor_thread_func and executor_continue_func. */
  function WorkerGoesOn(s: State, r: nat, result: int): Option<State>
    requires r < |s.workers|
  {
    var w := s.workers[r];
    match w.pc
    case Done => None
    case Entry =>
      Some(SetWorker(s, r, w.(pc := if w.job.Process? && s.message.None? then NoMessage else InSession)))
    case InSession => Some(SetWorker(s, r, w.(pc := Returned, result := result)))
    case Returned =>
      if !s.mutex.Free? then None
      else Some(SetWorker(s, r, w.(pc := Locked)).(mutex := Held(r), lastResult := w.result))
    case Locked =>
      Some(SetWorker(s, r, w.(pc := Decided, event := Classify(s.cancelRequested, w.result))))
    case Decided => Some(SetWorker(s, r, w.(pc := Sent)).(pipe := Send(s.pipe, Terminal(r, w.event))))
    case Sent =>
      Some(SetWorker(s, r, w.(pc := MessageFreed)).(message := if w.job.Process? then None else s.message))
    case MessageFreed => Some(SetWorker(s, r, w.(pc := Unlocking)).(running := false))
    case Unlocking => Some(SetWorker(s, r, w.(pc := Done)).(mutex := Free))
    case NoMessage =>
      if !s.mutex.Free? then None
      else Some(SetWorker(s, r, w.(pc := NoMessageSend, result := -1, event := Error)).(lastResult := -1))
    case NoMessageSend => Some(SetWorker(s, r, w.(pc := NoMessageClear)).(pipe := Send(s.pipe, Terminal(r, Error))))
    case NoMessageClear => Some(SetWorker(s, r, w.(pc := Done)).(running := false))
  }

  /** The main thread, outside any call, enters one. */
  function Enter(s: State, pc: MainPc): Option<State> {
    if s.main.Idle? then Some(s.(main := pc)) else None
  }

  /** One atomic step, or None when the thread it belongs to cannot take it now. */
  function Do(s: State, a: Action): Option<State> {
    match a
    case CallStart(text) => Enter(s, Starting(Process(text), Check))
    case CallContinue => Enter(s, Starting(Continue, Check))
    case CallCancel => Enter(s, CancelCheck)
    case CallWait => Enter(s, Waiting(WaitLock))
    case CallDestroy => Enter(s, Destroying(EndCheck))
    case CallProcessEvents => if s.main.Idle? then Some(s.(pipe := Receive(s.pipe))) else None
    case MainStep(choice) => MainGoesOn(s, choice)
    case WorkerStep(r, result) => if r < |s.workers| then WorkerGoesOn(s, r, result) else None
    case Announce => Some(s.(pipe := Send(s.pipe, SubagentSpawned)))
  }

  /** The state after a schedule; a step that is not possible leaves the state as it is. */
  function Run(s: State, schedule: seq<Action>): State
    decreases |schedule|
  {
    if schedule == [] then s
    else Run(match Do(s, schedule[0]) case Some(t) => t case None => s, schedule[1..])
  }

  // ----- What every step keeps -----

  /** start or continue is between its join and pthread_create, or undoing a failed pthread_create. */
  predicate Preparing(pc: MainPc) {
    pc.Starting? && !pc.start.Check? && !pc.start.Join? && !pc.start.Mark?
  }

  /** The fields of the next run have been reset and its worker does not exist yet. */
  predicate Armed(pc: MainPc) {
    pc.Starting? && (pc.start.Raise? || pc.start.Unlock? || pc.start.Create?)
  }

  predicate MainHolds(pc: MainPc) {
    || (pc.Starting? && (pc.start.Reset? || pc.start.Raise? || pc.start.Unlock? || pc.start.FailLower?
                         || pc.start.FailUnlock?))
    || (pc.Waiting? && (pc.wait.WaitTest? || pc.wait.WaitUnlock? || pc.wait.WaitGiveUp?))
  }

  predicate WorkerHolds(pc: WorkerPc) {
    pc.Locked? || pc.Decided? || pc.Sent? || pc.MessageFreed? || pc.Unlocking?
  }

  /** running has been raised for a run that has no worker yet, or whose pthread_create failed. */
  predicate RaisedEarly(pc: MainPc) {
    pc.Starting? && (pc.start.Unlock? || pc.start.Create? || pc.start.FailLock? || pc.start.FailLower?
                     || pc.start.FailContinue?)
  }

  predicate HasSent(pc: WorkerPc) {
    pc.Sent? || pc.MessageFreed? || pc.Unlocking? || pc.Done?
  }

  predicate HasDecided(pc: WorkerPc) {
    HasSent(pc) || pc.Decided?
  }

  predicate UsesMessage(pc: WorkerPc) {
    BeforeCheck(pc) || pc.Decided? || pc.Sent?
  }

  predicate LacksMessage(pc: WorkerPc) {
    pc.NoMessage? || pc.NoMessageSend? || pc.NoMessageClear?
  }

  /** The worker has lowered running for the last time. */
  predicate Leaving(pc: WorkerPc) {
    pc.Unlocking? || pc.Done?
  }

  /** Every worker but the latest has ended. */
  predicate EarlierDone(s: State) {
    forall r :: 0 <= r < |s.workers| - 1 ==> s.workers[r].pc.Done?
  }

  /** running says whether the latest worker is still at work, the thread handle is marked while it needs joining,
      and the mutex has the owner that the program counters say. */
  predicate ControlOk(s: State) {
    var pc := Latest(s).pc;
    && !LacksMessage(pc)
    && (Preparing(s.main) || s.main == Destroying(Ended) ==> pc.Done? && !s.threadStarted)
    && (s.main.Starting? && s.main.start.Join? ==> !s.running)
    && (s.running <==> RaisedEarly(s.main) || !Leaving(pc))
    && (s.main.Starting? && s.main.start.Mark? ==> s.workers != [] && !s.threadStarted)
    && (!pc.Done? && !(s.main.Starting? && s.main.start.Mark?) ==> s.threadStarted)
    && (s.threadStarted ==> s.workers != [])
    && (s.mutex.Main? <==> MainHolds(s.main))
    && (s.mutex.Held? <==> WorkerHolds(pc))
    && (s.mutex.Held? ==> s.mutex.run == |s.workers| - 1)
  }

  /** The text a worker was given stays in place until that worker itself frees it. */
  predicate MessageOk(s: State) {
    var w := Latest(s);
    && (w.job.Process? && UsesMessage(w.pc) ==> s.message == Some(w.job.text))
    && (Armed(s.main) && s.main.job.Process? ==> s.message == Some(s.main.job.text))
  }

  /** Before the latest worker's check, the flag says exactly whether a cancel was stored for its run. */
  predicate CancelOk(s: State) {
    && (BeforeCheck(Latest(s).pc) ==> (s.cancelRequested <==> |s.workers| - 1 in s.cancelledBefore))
    && (Armed(s.main) ==> !s.cancelRequested)
  }

  predicate VerdictsOk(workers: seq<Worker>, cancelledBefore: set<nat>) {
    && (forall r :: r in cancelledBefore ==> r < |workers|)
    && (forall r :: 0 <= r < |workers| && HasDecided(workers[r].pc) ==>
                      workers[r].event == Classify(r in cancelledBefore, workers[r].result))
  }

  function Terminals(items: seq<Item>): seq<Item>
    decreases |items|
  {
    if items == [] then []
    else
      Terminals(items[..|items| - 1]) + (if items[|items| - 1].Terminal? then [items[|items| - 1]] else [])
  }

  /** The terminal bytes the pipe ought to have taken: one for each run that has sent, in run order, but for those
      dropped. */
  function Owed(workers: seq<Worker>, dropped: set<nat>): seq<Item>
    decreases |workers|
  {
    if workers == [] then []
    else
      var last := |workers| - 1;
      Owed(workers[..last], dropped)
      + (if HasSent(workers[last].pc) && last !in dropped then [Terminal(last, workers[last].event)] else [])
  }

  predicate PipeOk(workers: seq<Worker>, p: Pipe) {
    && p.received + p.unread == p.accepted
    && |p.unread| <= p.capacity
    && Terminals(p.accepted) == Owed(workers, p.dropped)
    && (forall r :: r in p.dropped ==> r < |workers| && HasSent(workers[r].pc))
  }

  predicate Inv(s: State) {
    && EarlierDone(s) && ControlOk(s) && MessageOk(s) && CancelOk(s)
    && VerdictsOk(s.workers, s.cancelledBefore) && PipeOk(s.workers, s.pipe)
  }

  // ----- The invariant is inductive: steps of the main thread -----

  /** Up to the call of pthread_create. */
  predicate BeforeCreate(at: StartPc) {
    at in {Check, Join, Lock, Reset, Raise, Unlock}
  }

  lemma FirstStepsKeepControl(s: State, choice: bool)
    requires s.main.Starting? && BeforeCreate(s.main.start) && ControlOk(s) && MainGoesOn(s, choice).Some?
    ensures ControlOk(MainGoesOn(s, choice).value)
  {
  }

  lemma LastStepsKeepControl(s: State, choice: bool)
    requires s.main.Starting? && !BeforeCreate(s.main.start) && ControlOk(s) && MainGoesOn(s, choice).Some?
    ensures ControlOk(MainGoesOn(s, choice).value)
  {
  }

  lemma StartKeepsControl(s: State, choice: bool)
    requires s.main.Starting? && ControlOk(s) && MainGoesOn(s, choice).Some?
    ensures ControlOk(MainGoesOn(s, choice).value)
  {
    if BeforeCreate(s.main.start) {
      FirstStepsKeepControl(s, choice);
    } else {
      LastStepsKeepControl(s, choice);
    }
  }

  lemma WaitKeepsControl(s: State, choice: bool)
    requires s.main.Waiting? && ControlOk(s) && MainGoesOn(s, choice).Some?
    ensures ControlOk(MainGoesOn(s, choice).value)
  {
  }

  lemma DestroyKeepsControl(s: State, choice: bool)
    requires s.main.Destroying? && ControlOk(s) && MainGoesOn(s, choice).Some?
    ensures ControlOk(MainGoesOn(s, choice).value)
  {
  }

  lemma CancelKeepsControl(s: State, choice: bool)
    requires s.main.CancelCheck? || s.main.CancelStore?
    requires ControlOk(s)
    ensures ControlOk(MainGoesOn(s, choice).value)
  {
  }

  lemma MainKeepsMessage(s: State, choice: bool)
    requires ControlOk(s) && MessageOk(s) && MainGoesOn(s, choice).Some?
    ensures MessageOk(MainGoesOn(s, choice).value)
  {
    if s.main.Starting? {
      StartKeepsMessage(s, choice);
    } else {
      OtherCallFrame(s, choice);
    }
  }

  lemma StartKeepsMessage(s: State, choice: bool)
    requires s.main.Starting? && ControlOk(s) && MessageOk(s) && MainGoesOn(s, choice).Some?
    ensures MessageOk(MainGoesOn(s, choice).value)
  {
  }

  lemma StartKeepsCancel(s: State, choice: bool)
    requires s.main.Starting? && ControlOk(s) && CancelOk(s) && VerdictsOk(s.workers, s.cancelledBefore)
    requires MainGoesOn(s, choice).Some?
    ensures CancelOk(MainGoesOn(s, choice).value)
  {
  }

  lemma OtherCallKeepsCancel(s: State, choice: bool)
    requires !s.main.Starting? && CancelOk(s) && MainGoesOn(s, choice).Some?
    ensures CancelOk(MainGoesOn(s, choice).value)
  {
    OtherCallFrame(s, choice);
  }

  /** A call other than start and continue leaves the workers and their text alone, and what it does to the cancel flag
      is to store it. */
  lemma OtherCallFrame(s: State, choice: bool)
    requires !s.main.Starting? && MainGoesOn(s, choice).Some?
    ensures var t := MainGoesOn(s, choice).value;
            && !t.main.Starting? && t.pipe == s.pipe && t.workers == s.workers && t.message == s.message
            && ((t.cancelRequested == s.cancelRequested && t.cancelledBefore == s.cancelledBefore)
                || (t.cancelRequested && t.cancelledBefore == StoreCancel(s).cancelledBefore))
  {
    if s.main.Waiting? {
      WaitFrame(s, s.main.wait, choice);
    }
  }

  lemma WaitFrame(s: State, at: WaitPc, choice: bool)
    requires WaitGoesOn(s, at, choice).Some?
    ensures var t := WaitGoesOn(s, at, choice).value;
            && !t.main.Starting? && t.pipe == s.pipe && t.workers == s.workers && t.message == s.message
            && t.cancelRequested == s.cancelRequested && t.cancelledBefore == s.cancelledBefore
  {
  }

  /** start and continue touch the history only by adding a worker at its entry. */
  lemma StartFrame(s: State, choice: bool)
    requires s.main.Starting? && MainGoesOn(s, choice).Some?
    ensures var t := MainGoesOn(s, choice).value;
            && t.pipe == s.pipe && t.cancelledBefore == s.cancelledBefore
            && (t.workers == s.workers
                || (s.main.start.Create? && t.workers == s.workers + [Worker(s.main.job, Entry, 0, Complete)]))
  {
  }

  /** A worker at its entry has decided nothing and sent nothing. */
  lemma EntryKeepsHistory(workers: seq<Worker>, job: Job, cancelledBefore: set<nat>, p: Pipe)
    requires VerdictsOk(workers, cancelledBefore) && PipeOk(workers, p)
    ensures var more := workers + [Worker(job, Entry, 0, Complete)];
            VerdictsOk(more, cancelledBefore) && PipeOk(more, p)
  {
    var more := workers + [Worker(job, Entry, 0, Complete)];
    assert more[..|workers|] == workers;
    assert Owed(workers, p.dropped) + [] == Owed(workers, p.dropped);
  }

  lemma MainKeepsHistory(s: State, choice: bool)
    requires EarlierDone(s) && ControlOk(s) && VerdictsOk(s.workers, s.cancelledBefore) && PipeOk(s.workers, s.pipe)
    requires MainGoesOn(s, choice).Some?
    ensures var t := MainGoesOn(s, choice).value;
            EarlierDone(t) && VerdictsOk(t.workers, t.cancelledBefore) && PipeOk(t.workers, t.pipe)
  {
    var t := MainGoesOn(s, choice).value;
    if s.main.Starting? {
      StartFrame(s, choice);
      if t.workers != s.workers {
        assert Latest(s).pc.Done?;
        EntryKeepsHistory(s.workers, s.main.job, s.cancelledBefore, s.pipe);
      }
    } else {
      OtherCallFrame(s, choice);
    }
  }

  // ----- Steps of the workers -----

  /** A worker that moves is the latest one. */
  lemma OnlyLatestMoves(s: State, r: nat, result: int)
    requires EarlierDone(s) && r < |s.workers| && WorkerGoesOn(s, r, result).Some?
    ensures r == |s.workers| - 1 && s.workers[r] == Latest(s)
  {
  }

  lemma LockedWorkerKeepsControl(s: State, r: nat, result: int)
    requires ControlOk(s) && s.workers != [] && r == |s.workers| - 1 && WorkerHolds(s.workers[r].pc)
    requires WorkerGoesOn(s, r, result).Some?
    ensures ControlOk(WorkerGoesOn(s, r, result).value)
  {
  }

  lemma UnlockedWorkerKeepsControl(s: State, r: nat, result: int)
    requires ControlOk(s) && MessageOk(s) && s.workers != [] && r == |s.workers| - 1
    requires !WorkerHolds(s.workers[r].pc) && WorkerGoesOn(s, r, result).Some?
    ensures ControlOk(WorkerGoesOn(s, r, result).value)
  {
  }

  lemma WorkerKeepsControl(s: State, r: nat, result: int)
    requires EarlierDone(s) && ControlOk(s) && MessageOk(s)
    requires r < |s.workers| && WorkerGoesOn(s, r, result).Some?
    ensures ControlOk(WorkerGoesOn(s, r, result).value)
  {
    OnlyLatestMoves(s, r, result);
    if WorkerHolds(s.workers[r].pc) {
      LockedWorkerKeepsControl(s, r, result);
    } else {
      UnlockedWorkerKeepsControl(s, r, result);
    }
  }

  lemma WorkerKeepsFlags(s: State, r: nat, result: int)
    requires EarlierDone(s) && ControlOk(s) && MessageOk(s) && CancelOk(s)
    requires r < |s.workers| && WorkerGoesOn(s, r, result).Some?
    ensures var t := WorkerGoesOn(s, r, result).value; MessageOk(t) && CancelOk(t)
  {
    OnlyLatestMoves(s, r, result);
  }

  lemma WorkerChangesItself(s: State, r: nat, result: int)
    requires r < |s.workers| && WorkerGoesOn(s, r, result).Some? && !LacksMessage(s.workers[r].pc)
    ensures var t := WorkerGoesOn(s, r, result).value;
            && |t.workers| == |s.workers| && t.workers == s.workers[r := t.workers[r]]
            && t.cancelledBefore == s.cancelledBefore
            && t.pipe == (if s.workers[r].pc.Decided? then Send(s.pipe, Terminal(r, s.workers[r].event)) else s.pipe)
  {
  }

  /** A worker changes only its own entry, its verdict only by its check, and the pipe only by its send. */
  lemma WorkerFrame(s: State, r: nat, result: int)
    requires r < |s.workers| && WorkerGoesOn(s, r, result).Some? && !LacksMessage(s.workers[r].pc)
    ensures var t := WorkerGoesOn(s, r, result).value;
            var w, w' := s.workers[r], t.workers[r];
            && t.workers == s.workers[r := w'] && t.cancelledBefore == s.cancelledBefore
            && (HasDecided(w'.pc) ==>
                  w'.result == w.result
                  && w'.event == if HasDecided(w.pc) then w.event else Classify(s.cancelRequested, w.result))
            && (HasDecided(w'.pc) && !HasDecided(w.pc) ==> w.pc.Locked?)
            && t.pipe == (if w.pc.Decided? then Send(s.pipe, Terminal(r, w.event)) else s.pipe)
            && (HasSent(w'.pc) <==> HasSent(w.pc) || w.pc.Decided?)
  {
    WorkerChangesItself(s, r, result);
  }

  lemma WorkerKeepsVerdicts(s: State, r: nat, result: int)
    requires Inv(s) && r < |s.workers| && WorkerGoesOn(s, r, result).Some?
    ensures var t := WorkerGoesOn(s, r, result).value; EarlierDone(t) && VerdictsOk(t.workers, t.cancelledBefore)
  {
    OnlyLatestMoves(s, r, result);
    WorkerFrame(s, r, result);
  }

  lemma TerminalsOfPrefix(items: seq<Item>, item: Item)
    ensures Terminals(items + [item]) == Terminals(items) + (if item.Terminal? then [item] else [])
  {
    assert (items + [item])[..|items|] == items;
  }

  /** A drop recorded for a run that is not among these workers changes nothing for them. */
  lemma {:induction false} OwedBelow(workers: seq<Worker>, dropped: set<nat>, run: nat)
    requires run >= |workers|
    ensures Owed(workers, dropped + {run}) == Owed(workers, dropped)
    decreases |workers|
  {
    if workers != [] {
      OwedBelow(workers[..|workers| - 1], dropped, run);
    }
  }

  /** The latest worker sends: one more byte is owed if the pipe takes it, and a drop is recorded if not. */
  lemma SendOwes(before: seq<Worker>, after: seq<Worker>, dropped: set<nat>)
    requires before != [] && |after| == |before| && after[..|before| - 1] == before[..|before| - 1]
    requires !HasSent(before[|before| - 1].pc) && HasSent(after[|before| - 1].pc)
    requires forall r :: r in dropped ==> r < |before| && HasSent(before[r].pc)
    ensures var r := |before| - 1;
            && Owed(after, dropped) == Owed(before, dropped) + [Terminal(r, after[r].event)]
            && Owed(after, dropped + {r}) == Owed(before, dropped)
  {
    var r := |before| - 1;
    OwedBelow(before[..r], dropped, r);
    assert Owed(before[..r], dropped) + [] == Owed(before[..r], dropped);
  }

  lemma SendKeepsPipe(before: seq<Worker>, after: seq<Worker>, p: Pipe)
    requires PipeOk(before, p) && before != [] && |after| == |before|
    requires var r := |before| - 1;
             after[..r] == before[..r] && !HasSent(before[r].pc) && HasSent(after[r].pc)
    ensures var r := |before| - 1; PipeOk(after, Send(p, Terminal(r, after[r].event)))
  {
    var r := |before| - 1;
    var item := Terminal(r, after[r].event);
    TerminalsOfPrefix(p.accepted, item);
    SendOwes(before, after, p.dropped);
    assert p.received + (p.unread + [item]) == (p.received + p.unread) + [item];
    assert forall i :: 0 <= i < r ==> after[i] == after[..r][i] && before[i] == before[..r][i];
  }

  lemma WorkerKeepsPipe(s: State, r: nat, result: int)
    requires Inv(s) && r < |s.workers| && WorkerGoesOn(s, r, result).Some?
    ensures var t := WorkerGoesOn(s, r, result).value; PipeOk(t.workers, t.pipe)
  {
    OnlyLatestMoves(s, r, result);
    WorkerFrame(s, r, result);
    var t := WorkerGoesOn(s, r, result).value;
    assert t.workers[..r] == s.workers[..r];
    if s.workers[r].pc.Decided? {
      SendKeepsPipe(s.workers, t.workers, s.pipe);
    }
  }

  lemma AnnounceKeepsPipe(workers: seq<Worker>, p: Pipe)
    requires PipeOk(workers, p)
    ensures PipeOk(workers, Send(p, SubagentSpawned))
  {
    TerminalsOfPrefix(p.accepted, SubagentSpawned);
    assert p.received + (p.unread + [SubagentSpawned]) == (p.received + p.unread) + [SubagentSpawned];
  }

  lemma ReceiveKeepsPipe(workers: seq<Worker>, p: Pipe)
    requires PipeOk(workers, p)
    ensures PipeOk(workers, Receive(p))
  {
    if p.unread != [] {
      assert p.received + [p.unread[0]] + p.unread[1..] == p.received + p.unread;
    }
  }

  // ----- Every schedule -----

  lemma MainStepKeepsInv(s: State, choice: bool)
    requires Inv(s) && MainGoesOn(s, choice).Some?
    ensures Inv(MainGoesOn(s, choice).value)
  {
    if s.main.Starting? {
      StartKeepsControl(s, choice);
      StartKeepsCancel(s, choice);
    } else {
      OtherCallKeepsCancel(s, choice);
      if s.main.Waiting? {
        WaitKeepsControl(s, choice);
      } else if s.main.Destroying? {
        DestroyKeepsControl(s, choice);
      } else {
        CancelKeepsControl(s, choice);
      }
    }
    MainKeepsMessage(s, choice);
    MainKeepsHistory(s, choice);
  }

  lemma WorkerStepKeepsInv(s: State, r: nat, result: int)
    requires Inv(s) && r < |s.workers| && WorkerGoesOn(s, r, result).Some?
    ensures Inv(WorkerGoesOn(s, r, result).value)
  {
    WorkerKeepsControl(s, r, result);
    WorkerKeepsFlags(s, r, result);
    WorkerKeepsVerdicts(s, r, result);
    WorkerKeepsPipe(s, r, result);
  }

  lemma PipeKeepsInv(s: State, p: Pipe)
    requires Inv(s) && PipeOk(s.workers, p)
    ensures Inv(s.(pipe := p))
  {
  }

  lemma EnterKeepsInv(s: State, pc: MainPc)
    requires Inv(s) && s.main.Idle?
    requires pc in {CancelCheck, Waiting(WaitLock), Destroying(EndCheck)} || (pc.Starting? && pc.start.Check?)
    ensures Inv(s.(main := pc))
  {
  }

  lemma StepKeepsInv(s: State, a: Action)
    requires Inv(s) && Do(s, a).Some?
    ensures Inv(Do(s, a).value)
  {
    match a
    case MainStep(choice) => MainStepKeepsInv(s, choice);
    case WorkerStep(r, result) => WorkerStepKeepsInv(s, r, result);
    case Announce =>
      AnnounceKeepsPipe(s.workers, s.pipe);
      PipeKeepsInv(s, Send(s.pipe, SubagentSpawned));
    case CallProcessEvents =>
      ReceiveKeepsPipe(s.workers, s.pipe);
      PipeKeepsInv(s, Receive(s.pipe));
    case CallStart(text) => EnterKeepsInv(s, Starting(Process(text), Check));
    case CallContinue => EnterKeepsInv(s, Starting(Continue, Check));
    case CallCancel => EnterKeepsInv(s, CancelCheck);
    case CallWait => EnterKeepsInv(s, Waiting(WaitLock));
    case CallDestroy => EnterKeepsInv(s, Destroying(EndCheck));
  }

  lemma {:induction false} RunKeepsInv(s: State, schedule: seq<Action>)
    requires Inv(s)
    ensures Inv(Run(s, schedule))
    decreases |schedule|
  {
    if schedule != [] {
      var next := Do(s, schedule[0]);
      if next.Some? {
        StepKeepsInv(s, schedule[0]);
      }
      RunKeepsInv(match next case Some(t) => t case None => s, schedule[1..]);
    }
  }

  // ----- What holds after every schedule -----

  /** The executor after a schedule, from its creation over a pipe of some capacity. */
  function After(capacity: nat, schedule: seq<Action>): State {
    Run(Initial(capacity), schedule)
  }

  lemma AfterInv(capacity: nat, schedule: seq<Action>)
    ensures Inv(After(capacity, schedule))
  {
    RunKeepsInv(Initial(capacity), schedule);
  }

  /** At most one worker is unfinished, so at most one is inside the session; it has its own text in place, and the
      branch for a missing message is never taken. */
  lemma OneWorkerInSession(capacity: nat, schedule: seq<Action>, q: nat, r: nat)
    requires q < |After(capacity, schedule).workers| && r < |After(capacity, schedule).workers|
    ensures var s := After(capacity, schedule);
            && (!s.workers[q].pc.Done? && !s.workers[r].pc.Done? ==> q == r)
            && (s.workers[r].pc.InSession? && s.workers[r].job.Process? ==>
                  s.message == Some(s.workers[r].job.text))
            && !LacksMessage(s.workers[r].pc)
  {
    AfterInv(capacity, schedule);
  }

  /** How many runs have written their terminal byte. */
  function SentCount(s: State): nat {
    if s.workers == [] then 0 else |s.workers| - (if HasSent(Latest(s).pc) then 0 else 1)
  }

  lemma {:induction false} OwedIsOneEach(workers: seq<Worker>)
    requires forall r :: 0 <= r < |workers| ==> HasSent(workers[r].pc)
    ensures Owed(workers, {}) == seq(|workers|, r requires 0 <= r < |workers| => Terminal(r, workers[r].event))
    decreases |workers|
  {
    if workers != [] {
      OwedIsOneEach(workers[..|workers| - 1]);
    }
  }

  lemma OwedBySent(s: State)
    requires EarlierDone(s)
    ensures Owed(s.workers, {})
            == seq(SentCount(s), r requires 0 <= r < SentCount(s) => Terminal(r, s.workers[r].event))
  {
    if SentCount(s) == |s.workers| {
      OwedIsOneEach(s.workers);
    } else {
      var sent := s.workers[..SentCount(s)];
      OwedIsOneEach(sent);
      assert Owed(s.workers, {}) == Owed(sent, {}) + [];
    }
  }

  /** While no write has met a full pipe, the terminal bytes written are exactly one for each run that has got that
      far, in the order of the runs. */
  lemma OneTerminalPerRun(capacity: nat, schedule: seq<Action>)
    requires After(capacity, schedule).pipe.dropped == {}
    ensures var s := After(capacity, schedule);
            Terminals(s.pipe.accepted)
            == seq(SentCount(s), r requires 0 <= r < SentCount(s) => Terminal(r, s.workers[r].event))
  {
    AfterInv(capacity, schedule);
    OwedBySent(After(capacity, schedule));
  }

  lemma {:induction false} OwedMember(workers: seq<Worker>, dropped: set<nat>, item: Item)
    requires item in Owed(workers, dropped)
    ensures item.Terminal? && item.run < |workers| && HasSent(workers[item.run].pc)
            && item.event == workers[item.run].event
    decreases |workers|
  {
    var last := |workers| - 1;
    if item in Owed(workers[..last], dropped) {
      OwedMember(workers[..last], dropped, item);
    }
  }

  lemma {:induction false} TerminalsMember(items: seq<Item>, item: Item)
    requires item in items && item.Terminal?
    ensures item in Terminals(items)
    decreases |items|
  {
    var last := |items| - 1;
    if item != items[last] {
      assert items == items[..last] + [items[last]];
      TerminalsMember(items[..last], item);
    }
  }

  /** A run is reported as complete exactly if its session call returned 0 and nobody cancelled it in time, as failed
      exactly if the call returned something else than 0 and -2 and nobody did, and as interrupted otherwise. */
  predicate EventTells(event: Event, cancelled: bool, result: int) {
    && (event == Complete <==> result == 0 && !cancelled)
    && (event == Error <==> result != 0 && result != -2 && !cancelled)
    && (event == Interrupted <==> result == -2 || cancelled)
  }

  /** A terminal byte that can be read, or has been, belongs to a run whose session call has returned, and tells how
      it ended. */
  lemma ReadableAfterReturn(capacity: nat, schedule: seq<Action>, item: Item)
    requires var s := After(capacity, schedule);
             item.Terminal? && (item in s.pipe.unread || item in s.pipe.received)
    ensures var s := After(capacity, schedule);
            && item.run < |s.workers| && HasSent(s.workers[item.run].pc)
            && EventTells(item.event, item.run in s.cancelledBefore, s.workers[item.run].result)
  {
    AfterInv(capacity, schedule);
    var s := After(capacity, schedule);
    assert item in s.pipe.received + s.pipe.unread;
    TerminalsMember(s.pipe.accepted, item);
    OwedMember(s.workers, s.pipe.dropped, item);
  }

  lemma StepKeepsHistory(s: State, a: Action)
    requires Inv(s) && Do(s, a).Some?
    ensures s.cancelledBefore <= Do(s, a).value.cancelledBefore
  {
    match a
    case MainStep(choice) =>
      if s.main.Starting? {
        StartFrame(s, choice);
      } else {
        OtherCallFrame(s, choice);
      }
    case WorkerStep(r, result) => WorkerFrame(s, r, result);
    case _ =>
  }

  lemma {:induction false} RunKeepsHistory(s: State, schedule: seq<Action>)
    requires Inv(s)
    ensures s.cancelledBefore <= Run(s, schedule).cancelledBefore
    decreases |schedule|
  {
    if schedule != [] {
      var next := Do(s, schedule[0]);
      if next.Some? {
        StepKeepsInv(s, schedule[0]);
        StepKeepsHistory(s, schedule[0]);
      }
      RunKeepsHistory(match next case Some(t) => t case None => s, schedule[1..]);
    }
  }

  /** A cancel stored before the worker's check makes that run end with an Interrupted event, whatever its session
      call returns and whatever happens later. */
  lemma CancelInterruptsItsRun(capacity: nat, before: seq<Action>, after: seq<Action>, choice: bool)
    requires var s := After(capacity, before);
             s.main.CancelStore? && s.workers != [] && BeforeCheck(Latest(s).pc)
    ensures var s := After(capacity, before);
            var run := |s.workers| - 1;
            var t := Run(Do(s, MainStep(choice)).value, after);
            run < |t.workers| && (HasDecided(t.workers[run].pc) ==> t.workers[run].event == Interrupted)
  {
    AfterInv(capacity, before);
    var s := After(capacity, before);
    StepKeepsInv(s, MainStep(choice));
    RunKeepsInv(Do(s, MainStep(choice)).value, after);
    RunKeepsHistory(Do(s, MainStep(choice)).value, after);
  }

  /** A run that was not cancelled before its check and whose session call did not ask for it is never reported as
      interrupted: a cancel that comes too late does not reach the next run. */
  lemma LateCancelDoesNotLeak(capacity: nat, schedule: seq<Action>, r: nat)
    requires r < |After(capacity, schedule).workers|
    ensures var s := After(capacity, schedule);
            HasDecided(s.workers[r].pc) ==>
              (s.workers[r].event == Interrupted <==>
               r in s.cancelledBefore || s.workers[r].result == INTERRUPTED_RESULT)
  {
    AfterInv(capacity, schedule);
  }

  /** Nothing deadlocks: while the main thread is inside a call it can go on, or the latest worker can. */
  lemma NoDeadlock(capacity: nat, schedule: seq<Action>, choice: bool, result: int)
    ensures var s := After(capacity, schedule);
            s.main.Idle? || s.main == Destroying(Ended) || Do(s, MainStep(choice)).Some?
            || (s.workers != [] && Do(s, WorkerStep(|s.workers| - 1, result)).Some?)
  {
    AfterInv(capacity, schedule);
  }

  /** wait and destroy come to an end only after every worker has ended. */
  lemma JoinedMeansFinished(capacity: nat, schedule: seq<Action>, choice: bool, r: nat)
    requires var s := After(capacity, schedule);
             (s.main == Waiting(WaitJoin) || s.main == Destroying(EndJoin))
             && Do(s, MainStep(choice)).Some? && r < |s.workers|
    ensures After(capacity, schedule).workers[r].pc.Done?
  {
    AfterInv(capacity, schedule);
  }

  // ----- What the calls bring about -----

  predicate PastSession(pc: WorkerPc) {
    pc.Returned? || pc.Locked? || HasDecided(pc)
  }

  lemma StepKeepsResult(s: State, a: Action, r: nat)
    requires Inv(s) && Do(s, a).Some? && r < |s.workers| && PastSession(s.workers[r].pc)
    ensures var t := Do(s, a).value;
            r < |t.workers| && PastSession(t.workers[r].pc) && t.workers[r].result == s.workers[r].result
  {
    match a
    case MainStep(choice) =>
      if s.main.Starting? {
        StartFrame(s, choice);
      } else {
        OtherCallFrame(s, choice);
      }
    case WorkerStep(q, result) => WorkerChangesItself(s, q, result);
    case _ =>
  }

  lemma {:induction false} RunKeepsResult(s: State, schedule: seq<Action>, r: nat)
    requires Inv(s) && r < |s.workers| && PastSession(s.workers[r].pc)
    ensures var t := Run(s, schedule);
            r < |t.workers| && PastSession(t.workers[r].pc) && t.workers[r].result == s.workers[r].result
    decreases |schedule|
  {
    if schedule != [] {
      var next := Do(s, schedule[0]);
      if next.Some? {
        StepKeepsInv(s, schedule[0]);
        StepKeepsResult(s, schedule[0], r);
      }
      RunKeepsResult(match next case Some(t) => t case None => s, schedule[1..], r);
    }
  }

  /** What a session call returns decides, with the cancels stored in time, how its run is reported, whatever else
      happens before and after. */
  lemma SessionDecidesEvent(capacity: nat, before: seq<Action>, r: nat, result: int, after: seq<Action>)
    requires r < |After(capacity, before).workers| && After(capacity, before).workers[r].pc.InSession?
    ensures Do(After(capacity, before), WorkerStep(r, result)).Some?
    ensures var t := Run(Do(After(capacity, before), WorkerStep(r, result)).value, after);
            r < |t.workers|
            && (HasDecided(t.workers[r].pc) ==> EventTells(t.workers[r].event, r in t.cancelledBefore, result))
  {
    AfterInv(capacity, before);
    var s := After(capacity, before);
    var u := Do(s, WorkerStep(r, result)).value;
    StepKeepsInv(s, WorkerStep(r, result));
    assert u.workers[r].result == result && PastSession(u.workers[r].pc);
    RunKeepsInv(u, after);
    RunKeepsResult(u, after, r);
  }

  /** The main thread is outside any call and the latest worker has ended. */
  predicate AtRest(s: State) {
    s.main.Idle? && Latest(s).pc.Done?
  }

  /** The main thread takes n steps, none of which fails. */
  function Steps(s: State, n: nat): Option<State>
    decreases n
  {
    if n == 0 then Some(s)
    else
      match Do(s, MainStep(true))
      case None => None
      case Some(t) => Steps(t, n - 1)
  }

  lemma StepsOnce(s: State, t: State, n: nat)
    requires Do(s, MainStep(true)) == Some(t)
    ensures Steps(s, n + 1) == Steps(t, n)
  {
  }

  /** The worker that start or continue adds. */
  function Created(s: State, job: Job): State {
    s.(message := if job.Process? then Some(job.text) else s.message, lastResult := 0, cancelRequested := false,
       running := true, threadStarted := true, workers := s.workers + [Worker(job, Entry, 0, Complete)])
  }

  lemma FirstSteps(s: State, job: Job) returns (t: State)
    requires s.main == Starting(job, Check) && !s.running && s.mutex.Free?
    requires s.threadStarted ==> s.workers != [] && Latest(s).pc.Done?
    ensures t == s.(threadStarted := false, mutex := Main, main := Starting(job, Reset)) && Steps(s, 8) == Steps(t, 5)
  {
    var s1 := s.(main := Starting(job, Join));
    var s2 := s1.(threadStarted := false, main := Starting(job, Lock));
    t := s2.(mutex := Main, main := Starting(job, Reset));
    StepsOnce(s2, t, 5);
    StepsOnce(s1, s2, 6);
    StepsOnce(s, s1, 7);
  }

  lemma LastSteps(s: State, job: Job)
    requires s.main == Starting(job, Reset) && s.mutex.Main?
    ensures Steps(s, 5) == Some(Created(s, job).(mutex := Free, main := Idle))
  {
    var s1 := s.(message := if job.Process? then Some(job.text) else s.message, lastResult := 0,
                 cancelRequested := false, main := Starting(job, Raise));
    var s2 := s1.(running := true, main := Starting(job, Unlock));
    var s3 := s2.(mutex := Free, main := Starting(job, Create));
    var s4 := s3.(workers := s.workers + [Worker(job, Entry, 0, Complete)], main := Starting(job, Mark));
    var t := s4.(threadStarted := true, main := Idle);
    StepsOnce(s4, t, 0);
    StepsOnce(s3, s4, 1);
    StepsOnce(s2, s3, 2);
    StepsOnce(s1, s2, 3);
    StepsOnce(s, s1, 4);
  }

  /** start and continue, called at rest and not failing, create one worker with that job, which finds its text in
      place and no cancel. */
  lemma StartCreatesWorker(capacity: nat, schedule: seq<Action>, job: Job) returns (t: State)
    requires AtRest(After(capacity, schedule))
    ensures var s := After(capacity, schedule);
            var entered := Do(s, if job.Process? then CallStart(job.text) else CallContinue);
            && entered.Some? && Steps(entered.value, 8) == Some(t)
            && t.main.Idle? && t.running && !t.cancelRequested
            && |t.workers| == |s.workers| + 1 && t.workers[..|s.workers|] == s.workers
            && t.workers[|s.workers|].job == job && t.workers[|s.workers|].pc == Entry
            && (job.Process? ==> t.message == Some(job.text))
  {
    AfterInv(capacity, schedule);
    var s := After(capacity, schedule);
    var u := FirstSteps(s.(main := Starting(job, Check)), job);
    LastSteps(u, job);
    t := Created(u, job).(mutex := Free, main := Idle);
  }

  /** start and continue leave a running executor alone. */
  lemma StartIsRefused(s: State, job: Job)
    requires s.main.Idle? && s.running
    ensures var entered := Do(s, if job.Process? then CallStart(job.text) else CallContinue);
            entered.Some? && Steps(entered.value, 1) == Some(s)
  {
    var s0 := s.(main := Starting(job, Check));
    assert Do(s0, MainStep(true)) == Some(s);
    StepsOnce(s0, s, 0);
  }

  /** cancel and destroy, called while the latest worker has not made its check, store the cancel for its run. */
  lemma CancelIsStored(capacity: nat, schedule: seq<Action>, end: bool) returns (t: State)
    requires var s := After(capacity, schedule); s.main.Idle? && s.workers != [] && BeforeCheck(Latest(s).pc)
    ensures var s := After(capacity, schedule);
            var entered := Do(s, if end then CallDestroy else CallCancel);
            && entered.Some? && Steps(entered.value, if end then 3 else 2) == Some(t)
            && t.cancelRequested && |s.workers| - 1 in t.cancelledBefore && t.workers == s.workers
            && t.main == if end then Destroying(EndJoin) else Idle
  {
    AfterInv(capacity, schedule);
    var s := After(capacity, schedule);
    t := StoreCancel(s).(main := if end then Destroying(EndJoin) else Idle);
    if end {
      var s0, s1 := s.(main := Destroying(EndCheck)), s.(main := Destroying(EndRecheck));
      var s2 := s.(main := Destroying(EndStore));
      StepsOnce(s2, t, 0);
      StepsOnce(s1, s2, 1);
      StepsOnce(s0, s1, 2);
    } else {
      var s0, s1 := s.(main := CancelCheck), s.(main := CancelStore);
      StepsOnce(s1, t, 0);
      StepsOnce(s0, s1, 1);
    }
  }

  /** process_events returns the oldest byte that the pipe took and nobody has read. */
  lemma OldestIsRead(capacity: nat, schedule: seq<Action>)
    requires var s := After(capacity, schedule); s.main.Idle? && |s.pipe.received| < |s.pipe.accepted|
    ensures var s := After(capacity, schedule);
            && Do(s, CallProcessEvents).Some?
            && Do(s, CallProcessEvents).value.pipe.received == s.pipe.received + [s.pipe.accepted[|s.pipe.received|]]
            && s.pipe.received <= s.pipe.accepted
  {
    AfterInv(capacity, schedule);
    var p := After(capacity, schedule).pipe;
    assert p.accepted == p.received + p.unread;
  }

  lemma {:induction false} UnreadIsBounded(s: State, schedule: seq<Action>)
    requires |s.pipe.unread| + |schedule| <= s.pipe.capacity && s.pipe.dropped == {}
    ensures Run(s, schedule).pipe.dropped == {}
    decreases |schedule|
  {
    if schedule != [] {
      var next := Do(s, schedule[0]);
      var t := match next case Some(t) => t case None => s;
      if next.Some? {
        StepSendsOne(s, schedule[0]);
      }
      UnreadIsBounded(t, schedule[1..]);
    }
  }

  lemma StepSendsOne(s: State, a: Action)
    requires Do(s, a).Some? && |s.pipe.unread| < s.pipe.capacity
    ensures var p := Do(s, a).value.pipe;
            |p.unread| <= |s.pipe.unread| + 1 && p.dropped == s.pipe.dropped && p.capacity == s.pipe.capacity
  {
    if a.MainStep? {
      if s.main.Starting? {
        StartFrame(s, a.choice);
      } else {
        OtherCallFrame(s, a.choice);
      }
    }
  }

  /** No byte is dropped by a schedule that cannot fill the pipe. */
  lemma NothingIsDropped(capacity: nat, schedule: seq<Action>)
    requires |schedule| <= capacity
    ensures After(capacity, schedule).pipe.dropped == {}
  {
    UnreadIsBounded(Initial(capacity), schedule);
  }

  /** No timeout and no failing thread creation. */
  predicate Smooth(schedule: seq<Action>) {
    forall a :: a in schedule && a.MainStep? ==> a.choice
  }

  lemma {:induction false} SmoothNeverGivesUp(s: State, schedule: seq<Action>)
    requires Smooth(schedule) && s.main != Waiting(WaitGiveUp)
    ensures Run(s, schedule).main != Waiting(WaitGiveUp)
    decreases |schedule|
  {
    if schedule != [] {
      var next := Do(s, schedule[0]);
      assert schedule[0] in schedule;
      SmoothNeverGivesUp(match next case Some(t) => t case None => s, schedule[1..]);
    }
  }

  /** A wait that is not timed out comes to its end only after every worker has ended. */
  lemma WaitMeansFinished(capacity: nat, schedule: seq<Action>, r: nat)
    requires Smooth(schedule) && r < |After(capacity, schedule).workers|
    requires var s := After(capacity, schedule);
             s.main.Waiting? && Do(s, MainStep(true)).Some? && !Do(s, MainStep(true)).value.main.Waiting?
    ensures After(capacity, schedule).workers[r].pc.Done?
  {
    AfterInv(capacity, schedule);
    SmoothNeverGivesUp(Initial(capacity), schedule);
    LeavingWaitMeansDone(After(capacity, schedule), r);
  }

  lemma LeavingWaitMeansDone(s: State, r: nat)
    requires EarlierDone(s) && ControlOk(s) && r < |s.workers|
    requires s.main.Waiting? && s.main != Waiting(WaitGiveUp)
    requires Do(s, MainStep(true)).Some? && !Do(s, MainStep(true)).value.main.Waiting?
    ensures s.workers[r].pc.Done?
  {
  }

  /** An announcement goes behind the bytes in the pipe, if there is room for it. Its check of running lies before this
      step and may be out of date by now. */
  lemma AnnounceIsWritten(s: State)
    ensures var t := Do(s, Announce);
            && t.Some? && t.value.(pipe := s.pipe) == s
            && t.value.pipe.unread
               == s.pipe.unread + if |s.pipe.unread| < s.pipe.capacity then [SubagentSpawned] else []
  {
  }

  // ----- What a run leaves behind -----

  /** The text of a start, if there is one, is that of a run whose worker has yet to free it, or of a start that has
      yet to create its worker or to undo itself. */
  predicate MessageHasOwner(s: State) {
    s.message.Some? ==>
      || (s.workers != [] && Latest(s).job.Process? && UsesMessage(Latest(s).pc))
      || (s.main.Starting? && s.main.job.Process? && s.main.start in {Raise, Unlock, Create, FailLock, FailLower})
  }

  lemma WorkerKeepsOwner(s: State, r: nat, result: int)
    requires Inv(s) && MessageHasOwner(s) && Do(s, WorkerStep(r, result)).Some?
    ensures MessageHasOwner(Do(s, WorkerStep(r, result)).value)
  {
    OnlyLatestMoves(s, r, result);
  }

  lemma MainKeepsOwner(s: State, choice: bool)
    requires Inv(s) && MessageHasOwner(s) && Do(s, MainStep(choice)).Some?
    ensures MessageHasOwner(Do(s, MainStep(choice)).value)
  {
    if !s.main.Starting? {
      OtherCallFrame(s, choice);
    }
  }

  lemma StepKeepsOwner(s: State, a: Action)
    requires Inv(s) && MessageHasOwner(s) && Do(s, a).Some?
    ensures MessageHasOwner(Do(s, a).value)
  {
    match a
    case MainStep(choice) => MainKeepsOwner(s, choice);
    case WorkerStep(r, result) => WorkerKeepsOwner(s, r, result);
    case _ =>
  }

  lemma {:induction false} RunKeepsOwner(s: State, schedule: seq<Action>)
    requires Inv(s) && MessageHasOwner(s)
    ensures MessageHasOwner(Run(s, schedule))
    decreases |schedule|
  {
    if schedule != [] {
      var next := Do(s, schedule[0]);
      if next.Some? {
        StepKeepsInv(s, schedule[0]);
        StepKeepsOwner(s, schedule[0]);
      }
      RunKeepsOwner(match next case Some(t) => t case None => s, schedule[1..]);
    }
  }

  /** No text outlives its run: at rest there is none, whether the runs before ended well, badly or not even began. */
  lemma NoTextIsLeft(capacity: nat, schedule: seq<Action>)
    ensures MessageHasOwner(After(capacity, schedule))
    ensures AtRest(After(capacity, schedule)) ==> After(capacity, schedule).message == None
  {
    RunKeepsInv(Initial(capacity), schedule);
    RunKeepsOwner(Initial(capacity), schedule);
  }

  /** No start or continue is under way that has yet to create its worker. */
  predicate NotStarting(pc: MainPc) {
    pc.Starting? ==> pc.start.Mark?
  }

  /** The last result is that of the latest run, once its worker has stored it. */
  predicate ResultIsLast(s: State, r: nat, result: int) {
    && NotStarting(s.main) && |s.workers| == r + 1
    && PastSession(s.workers[r].pc) && s.workers[r].result == result
    && (!s.workers[r].pc.Returned? ==> s.lastResult == result)
  }

  lemma WorkerKeepsLast(s: State, q: nat, again: int, r: nat, result: int)
    requires EarlierDone(s) && ResultIsLast(s, r, result) && Do(s, WorkerStep(q, again)).Some?
    ensures ResultIsLast(Do(s, WorkerStep(q, again)).value, r, result)
  {
    OnlyLatestMoves(s, q, again);
  }

  lemma MainKeepsLast(s: State, choice: bool, r: nat, result: int)
    requires ResultIsLast(s, r, result) && MainGoesOn(s, choice).Some?
    ensures ResultIsLast(MainGoesOn(s, choice).value, r, result)
  {
    if s.main.Waiting? {
      WaitKeepsLast(s, s.main.wait, choice);
    }
  }

  lemma StepKeepsLast(s: State, a: Action, r: nat, result: int)
    requires EarlierDone(s) && ResultIsLast(s, r, result) && Do(s, a).Some? && !a.CallStart? && !a.CallContinue?
    ensures ResultIsLast(Do(s, a).value, r, result)
  {
    match a
    case WorkerStep(q, again) => WorkerKeepsLast(s, q, again, r, result);
    case MainStep(choice) => MainKeepsLast(s, choice, r, result);
    case _ =>
  }

  lemma WaitKeepsLast(s: State, at: WaitPc, choice: bool)
    requires WaitGoesOn(s, at, choice).Some?
    ensures var t := WaitGoesOn(s, at, choice).value;
            t.workers == s.workers && t.lastResult == s.lastResult && NotStarting(t.main)
  {
  }

  lemma {:induction false} RunKeepsLast(s: State, schedule: seq<Action>, r: nat, result: int)
    requires Inv(s) && ResultIsLast(s, r, result)
    requires forall a :: a in schedule ==> !a.CallStart? && !a.CallContinue?
    ensures ResultIsLast(Run(s, schedule), r, result)
    decreases |schedule|
  {
    if schedule != [] {
      var next := Do(s, schedule[0]);
      if next.Some? {
        StepKeepsInv(s, schedule[0]);
        StepKeepsLast(s, schedule[0], r, result);
      }
      RunKeepsLast(match next case Some(t) => t case None => s, schedule[1..], r, result);
    }
  }

  /** What a session call returns is what the executor's last result stands at, from the moment its worker has stored it
      until the next start or continue. */
  lemma SessionGivesLastResult(capacity: nat, before: seq<Action>, r: nat, result: int, after: seq<Action>)
    requires var s := After(capacity, before);
             r < |s.workers| && s.workers[r].pc.InSession? && NotStarting(s.main)
    requires forall a :: a in after ==> !a.CallStart? && !a.CallContinue?
    ensures Do(After(capacity, before), WorkerStep(r, result)).Some?
    ensures var t := Run(Do(After(capacity, before), WorkerStep(r, result)).value, after);
            r < |t.workers| && (HasDecided(t.workers[r].pc) ==> t.lastResult == result)
  {
    AfterInv(capacity, before);
    var s := After(capacity, before);
    OnlyLatestMoves(s, r, result);
    var u := Do(s, WorkerStep(r, result)).value;
    StepKeepsInv(s, WorkerStep(r, result));
    RunKeepsLast(u, after, r, result);
  }
}
