# A verified model of the agent's stateful core

This project models the parts of the agent whose correctness depends on state carried across steps: the task graph, the
pub/sub and conversation stores, the tool-call pipeline and its outer loop, the async executor, the supervisor
lifecycle, the event-stream parser behind its retry gate, the OAuth store with its codecs, and the script that flattens
the headers. Code that updates state is modelled by classes, arrays and loops. Each method is proved equal to a
specification function or to a state machine's step, and the theorems about whole runs are proved about those.

`dafny verify dfyconfig.toml` checks everything. The files, by component:

- `Graphs`, `TaskStores`: tasks and their blocked-by graph, in which a search precedes every new edge. `Subtrees`: the
  recursive query over parents, which nothing keeps free of cycles.
- `Channels` (channel cursors that move in a statement of their own), `ChannelRepeats` (when channel_receive_all
  delivers a row twice), `Conversations` (paging over two agents' messages while more are sent). `CInt` holds the
  conversions to C's int.
- `ToolBatch` (what a batch does), `ToolScreening` (which of its calls run), `ToolSlots` (what each call's slot holds,
  the status and the tracker), `ToolBatchExecutor` (its three phases over arrays).
- `ToolLoop` (the outer loop as a state machine), `ToolExits` (why it goes on or ends), `ToolResults` (how it reads
  results), `ToolTests` (what its tested flag is worth), `ToolLoopExecutor` (the loop and the workflow around it).
- `AsyncExecutor`: the main thread and the workers as interleaved atomic steps over a mutex, flags and a pipe.
- `Supervisors`: recorded pids against running, dead and reaped children, over the orchestrator's calls and the goal
  tools.
- `Streaming` (what an event stream means), `StreamingContexts` (the growing buffer and byte loop), `RetryGate` (what a
  call with retries gives to its consumer), `HttpClient` (the callbacks and the retry loop, with the parser as
  consumer).
- `Base64`, `QueryParams`: the codecs.
- `OAuthPending` and `OAuthStores` (authorization flows in a list of 16), `OAuthTokens` (stored tokens, refresh and
  rotation).
- `HeaderFlattener` (expansion as a trace), `HeaderScript` (the script's recursion).
- `Wrappers`: an option type.

## What the code does against what it says

- `lib/agent/tool_batch_executor.h:14` promises that direct mode fills all slots even on an abort or interrupt. When
  pre-screening stops, calls already approved are neither run nor filled, in compact mode as well (`UnfilledIff`). All
  slots counted are filled exactly when no call stops pre-screening after another was approved (`AllFilledIff`);
  `AbortLeavesSlotEmpty` is a batch that breaks the promise.
- The loop of `lib/agent/iterative_loop.c` takes a shell call for a test whether or not it was run, and for the initial
  batch `lib/agent/tool_executor.c` does not look at its result. A workflow can patch, have its one shell call refused,
  and end with 0 and no nudge (`EndsUntested`); or patch, test, fail the test, and end in the same way
  (`EndsOnFailedTest`). `LastTestIsRealIff` says for every workflow that ends in silence exactly when its last test was
  run and reports no failure.
- `task_store_set_parent` does not look for cycles: it closes one exactly when the new parent is the task itself or
  below it (`SetParentClosesCycleIff`). The query of `task_store_get_subtree` then does not end (`SubtreeGoesOn`); it
  ends exactly when no task below the root lies on a parent cycle (`SubtreeEndsIff`, `NoCycleBelowIff`).
- `channel_receive_all` comments that the rowid it tracks is monotonically increasing. It sets every cursor of the
  agent to one value, so a cursor can go back and a row can come twice. `NothingIsSkipped` holds all the same;
  `ReadAgainIff` and `NothingReadAgainIff` say, by the state before a call, which rows it makes unread again,
  `ReceiveAllRepeats` is a run in which one comes twice, and `NoRowTwice` describes runs in which none does.
- `message_list_between_latest` reassembles a conversation exactly when its limit is positive as a C int
  (`BackwardsWholeIff`), `message_list_between` exactly when it is not zero as one (`ForwardsWholeIff`). With 2^31 a
  conversation of one message comes back empty (`LargeLimitLosesMessage`).
- `orchestrator_supervisor_alive` takes a zombie for a live supervisor (`AliveAfterExit`). Its answer holds good exactly
  for a goal without a supervisor on record and for one whose supervisor is running and does not exit
  (`AliveIsTrueIff`); a reap beforehand makes sure of that for as long as it does not exit (`AskAfterReap`).
- `orchestrator_check_stale` finds nothing to clear among the process's own children (`NothingIsStale`).
- `orchestrator_spawn_supervisor` does not look for a supervisor already on record: it keeps one each exactly when there
  is none (`SpawnKeepsOneEachIff`).
- `http_post_streaming` makes no request at all and returns 0 when the retry setting is negative (`ResultMeans`). Its
  gate lets the bodies of 3xx responses through, where its comment speaks of 2xx only (`StreamingGate.OnBody`).
- `jwt_extract_nested_claim` admits a payload of 4096 characters, but its conversion buffer then is too small: 4095 is
  the limit (`PayloadReadBackIff`), and a payload of 3072 bytes is lost (`FullPayloadIsLost`).
- `extract_query_param` skips a rejected match whole. It finds the first key in every URL exactly for the names that do
  not begin again inside themselves right after a `?` or `&` (`SearchIsFirstIff`); `SearchMissesKey` shows a name that
  does. All callers use names without `?` and `&` (`NameHasNoOverlap`). For the empty name the search does not end,
  unless the text begins with an equals sign (`SearchEndsIff`).
- `extract_query_param` measures the encoded value, so one whose decoded form would fit can be refused
  (`ValueComesBack`), such as a space with a buffer of two bytes (`ShortValueRefused`).
- A refresh token that the provider rotates is lost when the row cannot be written (`FailedWriteLosesRotation`).
  `RequestIsCurrentIff` says exactly when a request carries the token the provider issued last.
- A flow whose provider name has 64 or more characters is never exchanged under that name, and a redirect URI of 512 or
  more is sent cut (`SentAsBegunIff`). In the run of `CutNameIsExchanged` such a flow is exchanged with another
  provider.

## Model

| member | source | states |
|---|---|---|
| TaskStores.TaskStore.DependencyChain | lib/db/task_store.c:272-281 | The recursive query ends on every graph and yields exactly the tasks that the start reaches in one or more steps. |
| TaskStores.TaskStore.AddDependency | lib/db/task_store.c:267-301 | On 0 the edge is in the table and nothing else has changed; -2 for a self-edge or when the blocker reaches the task, -1 for a missing task, and no change. |
| TaskStores.RefusedIffCycle | lib/db/task_store.c:269-281 | The answer is -2 exactly when the new edge would close a cycle. |
| TaskStores.AddedDependencyBlocks | lib/db/task_store.c:284-300 | After an add_dependency that answered 0, the task is ready in no session while its blocker is not completed, in every run that spares that edge and its two tasks. |
| TaskStores.ReadyIff | lib/db/task_store.c:400-417 | A task of the session is listed exactly when it is pending and every blocker in the table is completed. |
| TaskStores.HasPendingIff | lib/db/task_store.c:419-427 | has_pending holds exactly while some task of the session is not completed. |
| TaskStores.TaskStore.RemoveDependency | lib/db/task_store.c:303-310 | That edge is gone and every other stands; always 0. |
| TaskStores.TaskStore.CreateTask | lib/db/task_store.c:122-166 | A pending row, or -1 and no change for a taken id or a missing parent. |
| TaskStores.TaskStore.SetStatus | lib/db/task_store.c:168-175 | The status of an existing task changes; -1 for no such task. |
| TaskStores.TaskStore.SetParent | lib/db/task_store.c:242-265 | The parent of an existing task changes to an existing task or to none; no cycle check. |
| TaskStores.TaskStore.DeleteTask | lib/db/task_store.c:195-201 | The task, its descendants and every edge that touches them are gone. |
| TaskStores.TaskStore.GetSubtree | lib/db/task_store.c:220-240 | Where the query ends, it yields every task below the root, once each. |
| Subtrees.SubtreeEndsIff | lib/db/task_store.c:227-231 | Some run of the query ends exactly when the root is not below itself, and then every run is as short as the number of its descendants. |
| Subtrees.NoCycleBelowIff | lib/db/task_store.c:227-231 | The root is below itself exactly when some task below it lies on a parent cycle. |
| Subtrees.EndedYieldsDescendants | lib/db/task_store.c:227-233 | A run that ends, whatever the order of the rows, has yielded each descendant once and nothing else. |
| TaskStores.SetParentClosesCycleIff | lib/db/task_store.c:242-265 | set_parent closes a parent cycle exactly when the new parent is the task itself or below it. |
| TaskStores.SubtreeGoesOn | lib/db/task_store.c:220-265 | Two tasks made each other's parent, and no run of the query ends. |
| TaskStores.CascadeIsSubtree | lib/db/task_store.c:16-29 | Deleting a task removes it and exactly what lies below it, on parent cycles too. |
| TaskStores.CascadeIsLeast | lib/db/task_store.c:16-39 | A cascading delete removes nothing that the foreign keys do not force. |
| TaskStores.TaskStore.ReplaceSessionTasks | lib/db/task_store.c:429-508 | All or nothing: the session's rows replaced in order, a row whose id is no uuid under a fresh one, or everything as before when a row is refused or gets no id. |
| TaskStores.ReplaceMeans | lib/db/task_store.c:429-508 | It succeeds exactly when every row gets an id that is free and a parent that is there by then; the table then holds the rows as given and what the session's deletion left. |
| TaskStores.UuidMeans | lib/util/uuid_utils.c:43-71 | An id is kept exactly if it is five groups of 8, 4, 4, 4 and 12 hexadecimal digits of either case, joined by hyphens. |
| TaskStores.CallKeepsWellFormed | lib/db/task_store.c:122-508 | Every call keeps the foreign keys and the acyclic blocked-by graph. |
| TaskStores.RunStaysAcyclic | lib/db/task_store.c:122-508 | No run of calls ever makes a task wait for itself. |
| TaskStores.SomeTaskIsFree | lib/db/task_store.c:344-352 | Any set of unfinished tasks has one that waits for none of the set. |
| TaskStores.NeverStuck | lib/db/task_store.c:400-427 | For a session that waits only for itself and has nothing in progress, has_pending holds exactly when list_ready is not empty. |
| TaskStores.ReadyRunFinishes | lib/db/task_store.c:344-427 | Completing ready tasks in any order repeats none, respects every dependency, and stops only when all are done. |
| Graphs.AddEdgeClosesCycleIff | lib/db/task_store.c:271-281 | A new edge closes a cycle in an acyclic graph exactly when its ends are equal or already joined the other way. |
| Channels.ChannelStore.Subscribe | lib/ipc/message_store.c:497-517 | The cursor of that channel and agent starts, or starts again, at 0; -1 and no change without such a channel. |
| Channels.ChannelStore.Unsubscribe | lib/ipc/message_store.c:519-526 | Drops that cursor alone. |
| Channels.ChannelStore.Publish | lib/ipc/message_store.c:568-599 | A row with the next rowid on an existing channel, or -1 and no change. |
| Channels.ChannelStore.SelectUnread | lib/ipc/message_store.c:618-627 | The row loop of the query stops at the limit with exactly the oldest unread rows. |
| Channels.ChannelStore.MarkRead | lib/ipc/message_store.c:649-654 | The cursors that the update moves, and no others. |
| Channels.ChannelStore.Receive | lib/ipc/message_store.c:609-706 | Both receives with nothing in between: the oldest unread rows, and the cursor at the last of them. |
| Channels.UnreadExact | lib/ipc/message_store.c:619-624 | A query lists exactly the rows of subscribed channels above their cursors, in rowid order. |
| Channels.UnreadMeans | lib/ipc/message_store.c:619-624 | A row is listed exactly when the agent has a cursor on its channel, below it, and the channel is asked for. |
| Channels.NothingIsSkipped | lib/ipc/message_store.c:497-706 | In every run, with publishes between a receive's statements, all rows at or below a subscriber's cursor were returned to it. |
| Channels.FirstSubscriptionExact | lib/ipc/message_store.c:497-517 | A first subscription begins with nothing returned and everything to come. |
| Channels.UnsubscribedGetsNothing | lib/ipc/message_store.c:519-526 | Once an agent has unsubscribed, no row of the channel comes to it in any run unless it subscribes again. |
| ChannelRepeats.WholeReceive | lib/ipc/message_store.c:609-706 | The three statements of a receive that nothing interrupts return its batch and move the cursors to the last row of it. |
| Channels.BatchesArePublishOrder | lib/ipc/message_store.c:568-658 | With channel_receive alone, the batches concatenate to the channel in publish order, without gap or repeat. |
| ChannelRepeats.ReadAgainIff | lib/ipc/message_store.c:660-706 | channel_receive_all makes a read row unread again exactly when the agent has unread rows below it, and either none above it or already as many below it as the limit lets through. |
| ChannelRepeats.NothingReadAgainIff | lib/ipc/message_store.c:660-706 | A call repeats nothing exactly when no read row is in that place beforehand. |
| ChannelRepeats.ReceiveAllRepeats | lib/ipc/message_store.c:609-706 | A run from the empty store that delivers rows 2, 1 and again 2 to one agent. |
| ChannelRepeats.NoRowTwice | lib/ipc/message_store.c:660-706 | An agent that subscribes before its first receive and then only uses channel_receive_all gets rows in publish order and none twice, in every run. |
| Conversations.ConversationMeans | lib/ipc/message_store.c:313-329 | A row is in a conversation exactly when one of the two agents sent it to the other. |
| CInt.LimitMeans | lib/ipc/message_store.c:302-306 | A count goes through up to 2147483647, turns negative beyond, and zero stands for 100. |
| Conversations.DirectStore.ListBetween | lib/ipc/message_store.c:297-338 | The conversation is cut where the cursor's condition begins to hold, and the page is the beginning of what comes after, as long as the limit allows. |
| Conversations.DirectStore.ListBetweenLatest | lib/ipc/message_store.c:340-395 | The backward page and its has_more flag, by asking for one row more than wanted. |
| Conversations.HasMoreIsExact | lib/ipc/message_store.c:340-395 | With a sound limit a page is the newest messages before the cursor and has_more is set exactly when older ones remain. |
| Conversations.BackwardsIsWhole | lib/ipc/message_store.c:340-395 | Paging backwards by first ids ends, and the pages in reverse make up the conversation before the cursor as it stood at the first call, whatever is sent between the calls. |
| Conversations.BackwardsWholeIff | lib/ipc/message_store.c:350-388 | Under every schedule of sends, backward paging gives the whole conversation as of the first call exactly when the limit is positive as a C int. |
| Conversations.LargeLimitLosesMessage | lib/ipc/message_store.c:350-388 | With a limit of 2^31 the one message of a conversation is not handed out, however often it is asked for. |
| Conversations.ForwardsWholeIff | lib/ipc/message_store.c:297-338 | Forward paging gives the same sequence exactly when the limit is not zero as a C int. |
| ToolBatch.Orchestration.IsDuplicate | lib/agent/tool_orchestration.c:139-148 | Whether an id has been tracked. |
| ToolBatch.Orchestration.MarkExecuted | lib/agent/tool_orchestration.c:150-167 | The id is tracked after all others; a call without id is not. |
| ToolBatch.Orchestration.CanSpawnSubagent | lib/agent/tool_orchestration.c:169-180 | Every tool but a second subagent of the batch may go on, and the first one takes the batch's turn. |
| ToolBatch.Orchestration.ResetBatch | lib/agent/tool_orchestration.c:182-185 | The next batch may spawn a subagent; the tracker stays. |
| ToolBatchExecutor.FillRemainingInterrupted | lib/agent/tool_batch_executor.c:49-68 | Fills the slots from a call on with interrupted results: all calls in direct mode, those not seen before in compact mode. |
| ToolBatchExecutor.ScreenCall | lib/agent/tool_batch_executor.c:133-234 | One turn of pre-screening over the arrays is the specification's step for that call. |
| ToolBatchExecutor.PreScreen | lib/agent/tool_batch_executor.c:118-235 | The pre-screening loop over the arrays is the specification's, from the first call to the last or to a stop. |
| ToolBatchExecutor.RunSerially | lib/agent/tool_batch_executor.c:264-273 | The serial loop leaves each approved call's result in its slot. |
| ToolBatchExecutor.RunInThreads | lib/agent/tool_batch_executor.c:281-318 | Threads that finish in any order leave the same array as the serial loop. |
| ToolBatchExecutor.Execute | lib/agent/tool_batch_executor.c:108-330 | The whole batch: count, status, results, indices, tracker and subagent flag are those of the specification. |
| ToolBatch.OrderDoesNotMatter | lib/agent/tool_batch_executor.c:251-320 | Approved calls own distinct slots, so running them in any order gives one results array. |
| ToolBatch.BatchShape | lib/agent/tool_batch_executor.c:118-321 | Slots belong to calls in ascending order, each executed call owns one, direct mode takes them all, an early stop runs nothing. |
| ToolBatch.BatchFillsSlots | lib/agent/tool_batch_executor.c:118-321 | What each slot holds: the call's own result, an error for its own call, or nothing for a call approved before a stop. |
| ToolSlots.SlotsMean | lib/agent/tool_batch_executor.c:118-321 | Which calls own a slot in either mode, where, and what it holds: own result, refusal, the text of the interrupt or abort, or nothing. |
| ToolSlots.SlotOwner | lib/agent/tool_batch_executor.c:118-321 | No slot is counted but those. |
| ToolSlots.StatusMeans | lib/agent/tool_batch_executor.c:120-330 | -2 for an interrupt before or after tools have run, -1 for an abort, 0 otherwise, told from the calls and the outside answers. |
| ToolSlots.TrackedMeans | lib/agent/tool_batch_executor.c:135-160 | In compact mode the ids of the calls gone through are tracked, and no others; direct mode tracks none. |
| ToolScreening.RunsIff | lib/agent/tool_batch_executor.c:118-320 | A call is run exactly when no call stops pre-screening and it is new, not a second subagent and allowed by the gate. |
| ToolScreening.UnfilledIff | lib/agent/tool_batch_executor.c:118-243 | In both modes a counted slot stays empty exactly when its call was approved and a later one stopped pre-screening. |
| ToolScreening.AllFilledIff | lib/agent/tool_batch_executor.h:13-15 | All slots counted, in direct mode those of all calls, are filled exactly when no call stops pre-screening after another was approved. |
| ToolScreening.AbortLeavesSlotEmpty | lib/agent/tool_batch_executor.c:178-200 | A batch of two, the first allowed and the second aborted, leaves the first slot empty. |
| ToolBatch.BatchRunsNewIds | lib/agent/tool_batch_executor.c:135-160 | In compact mode no tracked id is run, none twice, and every id is tracked. |
| ToolBatch.BatchRunsOneSubagent | lib/agent/tool_batch_executor.c:159-172 | At most one approved call of a batch is a subagent, and none is when one was spawned before. |
| ToolLoop.RunKeepsOk | lib/agent/iterative_loop.c:25-308 | At most 200 iterations, 3 nudges and 3 retries in a row; the flags equal a scan of all that happened; no id runs twice or again. |
| ToolLoop.StopsOnlyWhenTested | lib/agent/iterative_loop.c:142-204 | A stop without tool calls means the nudges are spent, or a patch tool was called and the last call of a patch tool or the shell was one of the shell with no failure reported, run or not. |
| ToolTests.RefusedCallCounts | lib/agent/iterative_loop.c:246-295 | A refused shell call counts as a test that did not fail and a refused patch as a patch, as the refusal's text reads. |
| ToolTests.EndsUntested | lib/agent/iterative_loop.c:142-295 | A workflow that patches, has its shell call refused and falls silent ends with 0, no nudge and nothing run. |
| ToolTests.EndsOnFailedTest | lib/agent/tool_executor.c:71-98 | A workflow that patches and tests in the initial batch, whose test is run and fails, and that then falls silent, ends with 0 and no nudge. |
| ToolTests.LastTestIsRealIff | lib/agent/tool_executor.c:39-98 | The shell call behind the last mark of a workflow that ends in silence, in the initial batch or a later one, and exactly when it was run and reports no failure. |
| ToolLoop.FourFailuresInARow | lib/agent/iterative_loop.c:40-84 | Failed round trips end the loop only when four come in a row. |
| ToolExits.ExitHasCause | lib/agent/iterative_loop.c:36-307 | The loop ends in its first iteration whose reply does not let it go on, with the exit that reply gives, told from the replies, the ids met and the marks. |
| ToolExits.GoesOnIff | lib/agent/iterative_loop.c:36-307 | It goes on exactly for a failed trip that is not the fourth in a row, a silence over unfinished work with fewer than three before it, and new calls whose batch is not stopped. |
| ToolExits.FailuresAreRetried | lib/agent/iterative_loop.c:73-83 | Failed round trips of which no four come in a row never end a run. |
| ToolExits.BudgetExitsIff | lib/agent/iterative_loop.c:38-83 | Each of the exits without an answer happens exactly for its own reply, and the code it returns. |
| ToolExits.WorkflowCodeMeans | lib/agent/tool_executor.c:15-104 | -2 exactly when the initial batch is stopped, -3 exactly when the loop then runs out of context, otherwise 0. |
| ToolResults.MarkMeans | lib/agent/iterative_loop.c:249-295 | What each call of a batch is marked as, by its name and the text in its own slot. |
| ToolResults.PatchSucceededIff | lib/agent/iterative_loop.c:254-266 | A patch counts exactly when its result holds neither spelling of a failure. |
| ToolResults.ExitCodeIsRead | lib/agent/iterative_loop.c:280-290 | A shell result counts as failed exactly when the number behind its first exit code is not zero. |
| ToolLoop.WorkflowRunsIdsOnce | lib/agent/tool_executor.c:65-69 | Over a workflow the loop runs no id twice and none of the initial batch. |
| ToolLoop.ContextFullIff | lib/agent/tool_executor.c:85-103 | The context-full code is passed on for that reason only. |
| ToolLoopExecutor.UpdateFlags | lib/agent/iterative_loop.c:246-295 | The flag loop equals the scan of the batch's patches and tests, judged by their results. |
| ToolLoopExecutor.RunIteration | lib/agent/iterative_loop.c:31-307 | One pass of the loop over the context and flags is the state machine's step. |
| ToolLoopExecutor.RunLoop | lib/agent/iterative_loop.c:25-308 | The loop ends with the state machine's exit and state. |
| ToolLoopExecutor.SeedTracker | lib/agent/tool_executor.c:65-69 | Every id of the initial batch is tracked, in order. |
| ToolLoopExecutor.InitialFlags | lib/agent/tool_executor.c:71-83 | The initial flags equal the scan of the initial calls by name alone. |
| ToolLoopExecutor.RunWorkflow | lib/agent/tool_executor.c:15-104 | The workflow's return code. |
| AsyncExecutor.RunKeepsInv | lib/agent/async_executor.c:54-377 | The invariant over flags, mutex, message, verdicts and pipe holds under every schedule. |
| AsyncExecutor.OneWorkerInSession | lib/agent/async_executor.c:217-300 | At most one worker is unfinished, and it finds its own message. |
| AsyncExecutor.OneTerminalPerRun | lib/agent/async_executor.c:54-135 | While the pipe is not full, each run that has got that far has written one terminal byte, in run order. |
| AsyncExecutor.ReadableAfterReturn | lib/agent/async_executor.c:70-128 | A readable terminal byte belongs to a run past its session call: complete exactly for 0 without a cancel in time, error exactly for another result than 0 and -2 without one, interrupted otherwise. |
| AsyncExecutor.SessionDecidesEvent | lib/agent/async_executor.c:70-128 | What a session call returns decides the event of its run, whatever comes before and after. |
| AsyncExecutor.StartCreatesWorker | lib/agent/async_executor.c:184-300 | start and continue at rest create one worker with that job, its text in place and no cancel set. |
| AsyncExecutor.CancelIsStored | lib/agent/async_executor.c:333-377 | cancel and destroy before the worker's check store the cancel for its run. |
| AsyncExecutor.OldestIsRead | lib/agent/async_executor.c:309-324 | process_events returns the oldest byte not yet read. |
| AsyncExecutor.NothingIsDropped | lib/agent/async_executor.c:36-52 | A schedule that cannot fill the pipe drops no byte. |
| AsyncExecutor.AnnounceIsWritten | lib/agent/async_executor.c:393-405 | An announcement whose check of running has passed goes behind the bytes in the pipe, if there is room. |
| AsyncExecutor.WaitMeansFinished | lib/agent/async_executor.c:350-362 | A wait that is not timed out ends only after every worker has ended. |
| AsyncExecutor.NoTextIsLeft | lib/agent/async_executor.c:75-135 | The text of a start is freed with its run or its failed start: at rest there is none. |
| AsyncExecutor.SessionGivesLastResult | lib/agent/async_executor.c:386-391 | From the moment a worker has stored its session's result until the next start or continue, get_result gives it. |
| AsyncExecutor.CancelInterruptsItsRun | lib/agent/async_executor.c:333-348 | A cancel stored before the worker's check makes that run's event the interrupted one. |
| AsyncExecutor.LateCancelDoesNotLeak | lib/agent/async_executor.c:217-300 | A run that nobody cancelled in time is not reported as interrupted because of an older cancel. |
| AsyncExecutor.NoDeadlock | lib/agent/async_executor.c:184-377 | While the main thread is inside a call, it or the latest worker can go on. |
| AsyncExecutor.JoinedMeansFinished | lib/agent/async_executor.c:350-377 | wait and destroy end only after every worker has ended. |
| Supervisors.Orchestrator.SpawnSupervisor | lib/orchestrator/orchestrator.c:22-65 | On success a new child is on record; on failure none is left behind and nothing changes but for exits. |
| Supervisors.Orchestrator.SupervisorAlive | lib/orchestrator/orchestrator.c:67-84 | True exactly while the recorded pid exists; a pid that does not is cleared. |
| Supervisors.Orchestrator.ReapSupervisors | lib/orchestrator/orchestrator.c:86-114 | After reaping, records name only children that were running, and nothing but dead children is gone. |
| Supervisors.Orchestrator.KillSupervisor | lib/orchestrator/orchestrator.c:116-150 | The child is gone, its record cleared and its goal paused; -1 without a record. |
| Supervisors.Orchestrator.CheckStale | lib/orchestrator/orchestrator.c:152-171 | Clears exactly the pids of processes that do not exist. |
| Supervisors.Orchestrator.RespawnStatus | lib/orchestrator/orchestrator.c:178-196 | One pass gives every goal of a status without a child one, where starting it succeeds, touches no other, and counts the goals that gained one. |
| Supervisors.Orchestrator.RespawnDead | lib/orchestrator/orchestrator.c:173-199 | Both passes, over what the first left behind, and the number of goals that gained a supervisor. |
| Supervisors.Orchestrator.StartGoal | lib/tools/orchestrator_tool.c:330-376 | A planning or paused goal without a supervisor gets one, a paused one becomes active; otherwise nothing changes but for exits. |
| Supervisors.Orchestrator.PauseGoal | lib/tools/orchestrator_tool.c:423-441 | An active goal with a supervisor loses it and is paused; otherwise nothing changes. |
| Supervisors.Orchestrator.CancelGoal | lib/tools/orchestrator_tool.c:481-503 | A goal that has not ended fails and its supervisor is gone; otherwise nothing changes. |
| Supervisors.RunCalls | lib/orchestrator/orchestrator.c:67-199 | In every run of the orchestrator's calls and the goal tools, with goals added, statuses changed and exits between any two system calls, each goal has at most one child, the recorded one, and gets no dead child unless its own exits. |
| Supervisors.AtMostOneChild | lib/orchestrator/orchestrator.c:22-65 | What the invariant gives: two children of one goal are one, the recorded one. |
| Supervisors.SpawnKeepsOneEachIff | lib/orchestrator/orchestrator.c:22-65 | Starting a supervisor keeps one each exactly when none is on record. |
| Supervisors.NothingIsStale | lib/orchestrator/orchestrator.c:152-171 | With one supervisor each, check_stale clears nothing. |
| Supervisors.AliveIsTrueIff | lib/orchestrator/orchestrator.c:67-84 | supervisor_alive's answer holds good whatever exits meanwhile exactly for a goal with no supervisor on record or with a running one that does not exit. |
| Supervisors.AskAfterReap | lib/orchestrator/orchestrator.c:67-114 | After a reap and any calls, supervisor_alive says yes exactly when the goal's child is running, if that child does not exit meanwhile. |
| Supervisors.AliveAfterExit | lib/orchestrator/orchestrator.c:67-114 | A child that exits after the reap is taken for a live one. |
| Supervisors.DeadIsReplaced | lib/orchestrator/orchestrator.c:86-199 | A planning or active goal whose child died has a live one after the next reap and respawn, if starting it succeeds. |
| StreamingContexts.StreamingContext.EnsureCapacity | lib/network/streaming.c:17-47 | Doubling makes room exactly as long as a capacity of 2^63 is enough; contents and terminator stay; a failure changes nothing. |
| StreamingContexts.StreamingContext.AppendChar | lib/network/streaming.c:49-62 | One byte more and the terminator behind it, or -1 and no change for a line at the limit. |
| StreamingContexts.StreamingContext.ProcessSseLine | lib/network/streaming.c:194-240 | Payload, end mark, event type or nothing, as the line's prefix says. |
| StreamingContexts.StreamingContext.ProcessChunk | lib/network/streaming.c:168-192 | The byte loop leaves the state that feeding the bytes one by one does, with capacity and terminator kept. |
| Streaming.AnyCutting | lib/network/streaming.c:168-192 | However the stream is cut into chunks, the outcome is that of one call on the whole. |
| Streaming.FeedIsMeaning | lib/network/streaming.c:168-240 | Feeding equals splitting at line feeds, dropping carriage returns and handling the finished lines; it fails exactly when a line is too long. |
| Streaming.DataLineMeans | lib/network/streaming.c:194-218 | Data is the end mark, a payload under the type in force, or, if empty or unheard, nothing. |
| Streaming.TypeLineMeans | lib/network/streaming.c:219-236 | An event line sets the type, without blanks at its end or what follows a NUL. |
| Streaming.MessagesArrive | lib/network/streaming.c:194-240 | Events, comments and end marks, written with either line ending and cut anywhere: each event arrives once, in order, under its own type, and comments do not. |
| HttpClient.StreamingGate.OnHeader | lib/network/http_client.c:640-652 | The status is read from a status line and kept by any other line. |
| HttpClient.StreamingGate.OnBody | lib/network/http_client.c:624-638 | On a good status a chunk goes to the parser and is marked as forwarded; otherwise it is swallowed. |
| HttpClient.StreamingGate.Transfer | lib/network/http_client.c:738-761 | One transfer: all header lines, then chunks until one is refused. |
| HttpClient.StreamingGate.Post | lib/network/http_client.c:668-830 | Return code, everything given to the consumer and the parser's state are those of the specification. |
| RetryGate.StatusLineIsRead | lib/network/http_client.c:646-652 | A status line in the form of section 4 of RFC 9112 is read as its code. |
| RetryGate.NeverSpliced | lib/network/http_client.c:617-830 | Whatever the server does, at most max_retries + 1 attempts are made and all bytes given come from the last, as the beginning of its body. |
| RetryGate.WholeBodyOnSuccess | lib/network/http_client.c:668-830 | On 0 the parser holds exactly what the whole body of the last response means. |
| RetryGate.ResultMeans | lib/network/http_client.c:702-829 | 0 exactly for a last attempt with a status from 200 to 399 that the parser took, or a negative retry setting; -2 exactly for one the user interrupted; otherwise -1. |
| RetryGate.RetriedIff | lib/network/http_client.c:773-829 | An attempt is followed by another exactly when it gave nothing, failed in transport in one of five ways or with status 429, 500, 502, 503 or 504, and the budget is not spent. |
| RetryGate.GoodAnswerAfterFailures | lib/network/api_error.c:21-40 | After no more such failures than allowed, a good answer makes the call return 0 with that body in the parser. |
| Base64.Base64UrlEncode | lib/db/oauth2_store.c:93-105 | The loops over the library's output leave the unpadded base64url text and its terminator; -1 exactly when the padded text has no room. |
| Base64.Base64UrlToBase64 | lib/auth/jwt_decode.c:7-24 | The mapped and padded text with its length, or -1 when the buffer is within four bytes of the input. |
| Base64.StrippedIsUrl | lib/db/oauth2_store.c:93-105 | Mapping the alphabet and stripping the padding of standard base64 gives the encoding of section 5 of RFC 4648. |
| Base64.UrlSymbolIsListed | lib/db/oauth2_store.c:98-102 | Symbols 62 and 63 become - and _, and no other changes. |
| Base64.VectorUrl | lib/db/oauth2_store.c:93-105 | The bytes 251 and 255 are +/8= and, for a URL, -_8. |
| Base64.RoundTrip | lib/auth/jwt_decode.c:7-24 | For every byte string, encoding for a URL, converting back and decoding returns it. |
| Base64.JwtPayload | lib/auth/jwt_decode.c:26-58 | The payload's bytes up to the point where JSON parsing starts. |
| Base64.PayloadReadBackIff | lib/auth/jwt_decode.c:30-58 | The payload of an assembled token is read back exactly when it is not empty and has at most 4095 characters. |
| Base64.FullPayloadIsLost | lib/auth/jwt_decode.c:30-58 | A payload of 3072 bytes, which the length check admits, is not read back. |
| QueryParams.PercentDecodeInPlace | lib/auth/oauth_callback_server.c:82-107 | The two-pointer loop never overwrites what it has yet to read and equals the pure decoder. |
| QueryParams.DecodeEncode | lib/auth/oauth_callback_server.c:82-107 | Decoding undoes the percent-encoding of section 2.1 of RFC 3986 for every byte string. |
| QueryParams.DecodeMeans | lib/auth/oauth_callback_server.c:82-107 | Escapes of two digits of either case, a plus as a space, and everything else as it stands. |
| QueryParams.DecodeLower | lib/auth/oauth_callback_server.c:82-107 | Text written with lower-case escapes and plus signs comes back for every byte string. |
| QueryParams.ExtractQueryParam | lib/auth/oauth_callback_server.c:110-150 | The first key's value decoded into the buffer, or -1 and no change when there is none or it does not fit. |
| QueryParams.SearchEndsIff | lib/auth/oauth_callback_server.c:117-131 | The search ends exactly for a name that is not empty, or a text that begins with an equals sign. |
| QueryParams.SearchIsFirst | lib/auth/oauth_callback_server.c:117-131 | Skipping a rejected match whole misses no key, for a name that does not begin again inside itself after a delimiter. |
| QueryParams.SearchIsFirstIff | lib/auth/oauth_callback_server.c:117-131 | The first key is found in every URL exactly for such a name. |
| QueryParams.KeyAtMeans | lib/auth/oauth_callback_server.c:117-131 | What counts as a key: the name at the beginning or after ? or &, and = behind it. |
| QueryParams.UpToEndMeans | lib/auth/oauth_callback_server.c:133-138 | A value goes on up to &, a blank, the end of the line or of the text. |
| QueryParams.SearchMissesKey | lib/auth/oauth_callback_server.c:117-131 | A name with a delimiter inside, and a URL in which its key is missed. |
| QueryParams.ValueComesBack | lib/auth/oauth_callback_server.c:110-150 | In a built request the first value of a name comes back exactly when its encoded form fits. |
| QueryParams.ShortValueRefused | lib/auth/oauth_callback_server.c:140-141 | A space is refused with a buffer of two bytes and comes back with one of four. |
| OAuthStores.OAuthStore.RegisterProvider | lib/db/oauth2_store.c:429-436 | A new name is added while there are fewer than eight; -1 otherwise. |
| OAuthStores.OAuthStore.ExpirePendingAuths | lib/db/oauth2_store.c:251-261 | The in-place compaction keeps exactly the flows younger than 300 s, in order. |
| OAuthStores.OAuthStore.FindPendingByState | lib/db/oauth2_store.c:263-269 | The first flow with that state. |
| OAuthStores.OAuthStore.RemovePending | lib/db/oauth2_store.c:271-276 | The shift drops that flow and keeps the others in order. |
| OAuthStores.OAuthStore.BeginAuth | lib/db/oauth2_store.c:442-493 | Every outcome of begin_auth with the list it leaves, and on success the state and challenge sent out. |
| OAuthStores.OAuthStore.CompleteAuth | lib/db/oauth2_store.c:495-524 | The flow is sent to its provider once and removed whatever the answer; without a flow or provider nothing is sent. |
| OAuthPending.VerifierIsValid | lib/db/oauth2_store.c:107-125 | 32 random bytes give a verifier of 43 unreserved characters, as section 4.1 of RFC 7636 asks. |
| OAuthPending.PendingIsBegunNotDone | lib/db/oauth2_store.c:251-524 | The list is always the begun flows not yet exchanged nor found 300 s old by a sweep, in begin order, at most 16. |
| OAuthPending.OwnVerifierOnce | lib/db/oauth2_store.c:442-524 | Each state is exchanged at most once, with a verifier whose hashed characters are the challenge sent out with it. |
| OAuthPending.ExchangedIff | lib/db/oauth2_store.c:495-524 | A callback leads to an exchange exactly when its flow is unspent, younger than 300 s and its stored provider name is registered. |
| OAuthPending.BeginsIff | lib/db/oauth2_store.c:442-493 | A flow is begun exactly for a registered provider, with fewer than 16 left after the sweep, when both draws succeed and the URL has less than 2048 characters. |
| OAuthPending.RefusalMeans | lib/db/oauth2_store.c:442-493 | Why a flow is not begun: no such provider or no URL, a full list, or a failed draw or a URL too long. |
| OAuthPending.BegunFlowIsExchangedIff | lib/db/oauth2_store.c:442-524 | A flow just begun is exchanged by its next callback exactly within 300 s and under a registered name, with its own state, verifier, name and redirect URI. |
| OAuthPending.SentAsBegunIff | lib/db/oauth2_store.c:482-524 | In every run, an exchange carries the provider name and redirect URI its flow began with exactly when they fit their buffers. |
| OAuthPending.CutNameIsExchanged | lib/db/oauth2_store.c:442-524 | A run in which a flow begun with a name of 64 characters is exchanged with the provider of its first 63. |
| OAuthTokens.ProtectedFits | lib/db/oauth2_store.c:127-236 | Any token under 2048 bytes encrypts to the base64 of its vector and sealed text, at most 2768 characters, fits the 4096-byte column untruncated and decrypts to itself. |
| OAuthTokens.RunRefines | lib/db/oauth2_store.c:527-726 | Over every run the encrypted rows answer, and ask the provider, as a store of plain sessions would. |
| OAuthTokens.RowsStaySealed | lib/db/oauth2_store.c:527-678 | With encryption on, no run leaves a token in the table that is not sealed. |
| OAuthTokens.FetchGivesLastSaved | lib/db/oauth2_store.c:609-726 | Every answer to a fetch, told from the events: the access token and expiry of the last grant saved for that key while it has more than 60 s left, otherwise the new grant or why there is none. |
| OAuthTokens.RequestsCarryLastIssued | lib/db/oauth2_store.c:609-726 | Each refresh request carries the refresh token last issued since the login, rotated or kept, among those written. |
| OAuthTokens.RequestIsCurrentIff | lib/db/oauth2_store.c:609-726 | A request carries the refresh token the provider issued last exactly when that one was saved or was the one already stored. |
| OAuthTokens.FailedWriteLosesRotation | lib/db/oauth2_store.c:630-653 | On encrypted and plain rows alike, a rotated token whose write fails is lost: the next request carries the replaced one. |
| OAuthTokens.FreshOrRefreshed | lib/db/oauth2_store.c:706-721 | The provider is asked exactly when at most 60 s are left and it can be; a token given without asking has more. |
| OAuthTokens.TokenStore.SaveLogin | lib/db/oauth2_store.c:527-565 | The row of that provider and account is replaced, or left alone when the write fails. |
| OAuthTokens.TokenStore.DoRefreshAndStore | lib/db/oauth2_store.c:609-678 | The answer, the request sent, and the row with both tokens rewritten or the refresh token kept. |
| OAuthTokens.TokenStore.GetAccessToken | lib/db/oauth2_store.c:680-726 | The whole fetch: answer and rows. |
| OAuthTokens.TokenStore.RevokeToken | lib/db/oauth2_store.c:777-786 | The row is gone, unless the delete fails. |
| HeaderFlattener.VisitedIsReached | scripts/gen_header.py:91-142 | Across both phases the files visited are exactly those that a root is or reaches, on cyclic graphs too. |
| HeaderFlattener.EachReachedOnce | scripts/gen_header.py:91-142 | Every such header, and each line it keeps, is emitted exactly once, and nothing else. |
| HeaderFlattener.IncludesComeFirst | scripts/gen_header.py:103-126 | On acyclic graphs a line comes after the end of every file that an earlier line of its header includes. |
| HeaderFlattener.EqualsGuardedInclusion | scripts/gen_header.py:91-142 | The expansion is what a preprocessor makes of textual inclusion with a guard around each header. |
| HeaderFlattener.NothingIsCut | scripts/gen_header.py:103-126 | On acyclic graphs that textual inclusion is the plain recursive one. |
| HeaderFlattener.FailsIff | scripts/gen_header.py:118-126 | The script gives up exactly when a reached header has a line that stops it, and names such a line. |
| HeaderFlattener.FateMeans | scripts/gen_header.py:103-126 | A line is replaced exactly if it includes a file that is found and is no system header, and stops the script exactly if such a file is not found for a library header. |
| HeaderFlattener.ResolveMeans | scripts/gen_header.py:74-83 | The file next to the including one for a quoted name, otherwise the one at the least search path that has it. |
| HeaderScript.PlainHeader | scripts/gen_header.py:91-130 | A header without includes is given as it is between its banner and an empty line, or not at all. |
| HeaderScript.Flattener.FindInclude | scripts/gen_header.py:74-83 | Next to the including file first for a quoted name, then the search paths in order. |
| HeaderScript.Flattener.ExpandLine | scripts/gen_header.py:103-126 | What one line adds: itself, nothing, or the expansion of the file it names; or the exit. |
| HeaderScript.Flattener.Expand | scripts/gen_header.py:91-130 | The lines of one header's expansion and the visited set it leaves. |
| HeaderScript.Flattener.Flatten | scripts/gen_header.py:132-142 | Both phases over one visited set: the expansion of the umbrella header and the sweep. |

## Left out

- Running out of memory, failing copies of strings, NULL arguments, and database errors other than refused writes.
- Logging, spinners, terminal and JSON output, and the text of conversations.
- Clocks, random bytes, uuids, the network, the scheduler and the provider's answers: they are parameters or choices.
- The task store's listings other than readiness, their order, and content and priority updates.
- add_dependency takes its lock twice; each call is modelled as running to completion.
- GetSubtree: asks for a query that ends, and leaves out the order of its rows by creation time.
- Cleanup and channel deletion: rowids can be used again after them, and the cursor theorems fail.
- Direct receives, pending-message queues and agent cleanup in the message store.
- BackwardsWholeIff: leaves out the limit 2147483647, because the C addition then overflows, which C leaves
  undefined, and conversations of 2^31 messages, whose count no longer fits an int.
- Backwards and Forwards: bounded by a number of page calls, which the theorems show to be enough.
- Approval gates, the tools themselves and the model's replies: results of functions that the theorems quantify over.
- The index array's unused entries, whose contents the source leaves undefined.
- The error text of the executor and its interrupt signal to the session.
- Supervisors of other processes: for one that is not a child, kill_supervisor clears a pid without knowing that the
  process is gone.
- What supervisors write to the goal store while one of the orchestrator's calls is at work: it comes between calls.
- What a payload does once delivered: text, thinking and tool deltas, and the stop reason.
- NeverSpliced: takes a response's trailers to hold no status line, because curl's header callback sees those too.
- WholeBodyOnSuccess: takes curl's word that a finished transfer is complete and its status that of the last status
  line.
- Retry-After and the delays between attempts.
- The base64 decoder's tolerance for line breaks, and JSON parsing of the payload.
- ExtractQueryParam: asks for a search that ends, so not for the empty name, unless the text begins with an equals sign.
- Sockets and pages of the OAuth callback server.
- RevokeToken: does not model the provider's revocation call, whose outcome changes nothing stored.
- Rows written under one encryption setting and read under another.
- PendingIsBegunNotDone: needs a clock that does not go back and states that were never drawn before.
- The flattened header's fixed first and last lines, and writing the file only when it changes.
- Paths are taken as resolved, and which of them exist as fixed while the script runs.
