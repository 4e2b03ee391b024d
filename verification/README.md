# DeerFlow runtime model

A Dafny model of the stateful cores of the DeerFlow Go runtime, with proofs of what they promise.
Check it with `dafny verify dfyconfig.toml`.

Code that changes state is modelled by classes and methods with the program's own loops and order
of writes. Each such method is proved against a function of the old state, and the promises are
proved about those functions over all inputs, all runs or all interleavings. Code that only
computes is modelled by functions. Concurrent code is modelled as a state machine with one step for
each critical section, channel operation or unlocked action.

## The parts

- **Run events** (`EventTable`, `RunEvents`, `EventSubscription`): the append logs in memory and in
  SQLite, replay from a position, and the subscription in which a lossy live channel and a poller
  feed a de-duplicating merger.
- **Process graph and host plan** (`Digraph`, `ProcessGraph`, `ProcessOrder`, `HostPlan`,
  `ProcessRestart`): the three-colour validator, the start order that relies on it, the plan and
  bundle built from the order with their validators, and the restart loop of one process.
- **Runs and threads** (`RunState`, `RunServices`, `RunOwnership`, `RunCompletion`, `RunRecovery`,
  `RunQuery`, `TaskProgress`, `FinishedTasks`, `RunReports`, `Outcomes`): who owns a thread, what
  each operation leaves on it and reports, which attempts a resume dispatches, which run a client
  joins, how task events are followed, and which tasks a finished run leaves.
- **Sandbox leases and the run queue** (`SandboxLeases`, `LeaseProtocol`, `LeaseTiming`,
  `RunQueue`): the doubly checked capacity with sessions created outside the lock, eviction by
  idle time, and jobs handed to several workers with one-shot reply channels.
- **Agent policies** (`LoopPolicy`, `ToolCalls`, `ToolCallKey`, `ReadBudget`, `ToolHistory`,
  `RepairedHistory`, `ToolRounds`): the loop detector, the read budget with its cache and exact
  truncation, the repair of unanswered tool calls, and the order of results.
- **Task state** (`TaskState`): the normal form, merging, and the stored form.

`GoStrings` holds the string operations of Go's library that these rest on, `Sets` two facts about
finite sets, and `Wrappers` the option and result types.

## Where the code does less than one would expect

Each of these is a lemma with the failing case, next to the exact condition under which the code
keeps its promise.

- A subscriber loses events that share a merge key. Events with a blank ID share one whenever they
  agree in event name, run ID, thread ID, attempt and resume reason, whatever their data.
- The validator walks dependency names untrimmed, the order walk trims them. A cycle spelled with
  surrounding space passes the validator, and the order walk never returns on it.
- `Begin` makes any run the owner of its thread, also one that was cancelled in the meantime, and
  `ReconcileLive`, and with it a resume, does so with a stale record.
- The worker's completion writes to the thread without asking who owns it, so the end of a run
  overwrites the thread of a run prepared after it.
- While one parallel task is in progress the start of another is dropped without a trace.
- A lifecycle or a zero task state that survives in memory need not survive JSON.
- The end of an old attempt, written after a new one was dispatched, takes the saved attempt back,
  and the next resume dispatches the new attempt's number again.
- A detached cancel leaves the dead run named as owner; joining a thread copes with that.
- A lease ID drawn twice loses the session stored under it.
- An insert that waits long for the lock can leave a lease older than any sweep allows.
- A loop over k different rounds of calls is never stopped when the window is k(L-1) or shorter.

## Model

| member | source | states |
|---|---|---|
| `RunEvents.EventIndexOfID` | pkg/harnessruntime/event_feed_service.go:85-97 | the index printed into an event ID is parsed back for every run ID, also one that contains colons |
| `RunEvents.EventIndexReads` | pkg/harnessruntime/event_feed_service.go:85-97 | the index of an ID is the positive number spelled after its last colon, or by all of it when it has none, spaces aside; any other ID has index 0 |
| `RunEvents.ReplayFrom` | pkg/harnessruntime/event_feed_service.go:21-46 | the loop returns the feed form of the events past the position, and its flag says whether that part holds an end event |
| `RunEvents.ReplayIsTheSuffix` | pkg/harnessruntime/event_feed_service.go:21-46 | on a sequentially recorded log a replay from position k is exactly the normalised suffix from k, and it reports the end iff the suffix holds one |
| `RunEvents.ReconnectIsLossless` | pkg/harnessruntime/event_feed_service.go:21-46 | what a client saw plus its replay from the last index it saw is the whole log, with nothing missing and nothing twice |
| `RunEvents.FeedKeepsEnds` | pkg/harnessruntime/event_feed_service.go:99-127 | normalising events for the feed neither adds nor hides an end event |
| `RunEvents.FeedKeepsEvent` | pkg/harnessruntime/event_feed_service.go:99-127 | the feed shows an event under its own ID, name, run and thread with its own data and outcome; attempt, position and reason known to only one of event and outcome are shown for both, and known ones stay |
| `RunEvents.FeedIsIdempotent` | pkg/harnessruntime/event_feed_service.go:99-127 | normalising an event for the feed again changes nothing |
| `RunEvents.InMemoryRunEventStore.NextRunEventIndex` | pkg/harnessruntime/event_store.go:27-31 | the next index is one past the log's length |
| `RunEvents.InMemoryRunEventStore.AppendRunEvent` | pkg/harnessruntime/event_store.go:33-50 | an append adds the event at the end of its run's log and touches no other log |
| `RunEvents.InMemoryRunEventStore.ReplaceRunEvents` | pkg/harnessruntime/event_store.go:61-68 | a replace sets one run's log and touches no other |
| `RunEvents.InMemoryRunEventStore.RecordWithContext` | pkg/harnessruntime/event_service.go:36-54 | recording gives the event the ID of its position, and every log stays sequential |
| `RunEvents.SQLiteRunEventStore.NextRunEventIndex` | pkg/harnessruntime/sqlite_state_store.go:236-245 | the next index of the table is one past the log's length |
| `RunEvents.SQLiteRunEventStore.AppendRunEvent` | pkg/harnessruntime/sqlite_state_store.go:247-275 | inserting a row at the next index appends to the run's log, as in the in-memory store; a blank run ID records nothing |
| `RunEvents.SQLiteRunEventStore.LoadRunEvents` | pkg/harnessruntime/sqlite_state_store.go:277-301 | the ordered select returns the log |
| `RunEvents.SQLiteRunEventStore.ReplaceRunEvents` | pkg/harnessruntime/sqlite_state_store.go:303-327 | deleting the rows and inserting a list at 1, 2, ... makes that list the log |
| `EventTable.InsertAppends` | pkg/harnessruntime/sqlite_state_store.go:247-275 | a row inserted at max index + 1 comes last in the ordered select |
| `EventSubscription.NextKeepsInv` | pkg/harnessruntime/sqlite_state_store.go:329-407 | every step (append, live send or drop, poll scan, poll send, merge receive, read) keeps the invariant, and the log only grows |
| `EventSubscription.RunKeepsInv` | pkg/harnessruntime/sqlite_state_store.go:329-407 | the invariant holds in every reachable state of every interleaving |
| `EventSubscription.DeliveredAtMostOnce` | pkg/harnessruntime/sqlite_state_store.go:351-390 | in every interleaving whatever is delivered is in the log and no key is delivered twice |
| `EventSubscription.DrainedDeliversEveryKey` | pkg/harnessruntime/sqlite_state_store.go:351-390 | once the poller has scanned the log and both channels are empty, every key of the log has been delivered, however many live sends were dropped |
| `EventSubscription.DrainedDeliversExactly` | pkg/harnessruntime/sqlite_state_store.go:351-390 | then the delivered events are the log, each once, iff no two logged events share a merge key |
| `EventSubscription.CanDrain` | pkg/harnessruntime/event_store.go:162-200 | from every reachable state a subscriber's own steps can drain it, so nothing is ever stuck |
| `EventSubscription.EveryScheduleCatchesUp` | pkg/harnessruntime/event_store.go:162-200 | while nothing is appended every schedule makes it catch up: its steps other than rescans with nothing new to send are bounded by what was left, three for each live offer that still arrives; taking that many, or having none left to take, means that everything logged was sent, forwarded and read |
| `EventSubscription.CaughtUpReceivedExactly` | pkg/harnessruntime/sqlite_state_store.go:351-390 | a reader that has caught up was given every logged key, and the log exactly iff no two logged events share a merge key |
| `EventSubscription.LiveEventsAreDelivered` | pkg/harnessruntime/sqlite_state_store.go:351-390 | what arrived on the live channel reaches the reader by steps of merger and reader alone, without the poller |
| `EventSubscription.OffersAreBounded` | pkg/harnessruntime/sqlite_state_store.go:262-275 | over any run an inserted event is collected at most once and then offered at most once to a subscriber, and what was not yet is pending |
| `EventSubscription.ChannelsHold` | pkg/harnessruntime/sqlite_state_store.go:329-345 | under every interleaving no channel of a subscriber holds more than its capacity |
| `EventSubscription.IdentifiedEventsDeliveredExactly` | pkg/harnessruntime/event_store.go:202-207 | for events with IDs delivery is exact iff the IDs are distinct |
| `EventSubscription.RunEventsDeliveredExactly` | pkg/harnessruntime/sqlite_state_store.go:351-390 | for run events with or without IDs delivery is exact iff no two share a merge key, as long as no ID reads like the positional key of an event without one |
| `EventSubscription.UnidentifiedEventsDeliveredExactly` | pkg/harnessruntime/event_store.go:202-207 | for events without IDs delivery is exact iff no two print the same event name, run ID, thread ID, attempt and resume reason |
| `EventSubscription.RecordedLogDeliveredExactly` | pkg/harnessruntime/event_service.go:36-54 | a log recorded one event at a time reaches every drained subscriber exactly |
| `EventSubscription.CollidingEventsGetLost` | pkg/harnessruntime/sqlite_state_store.go:351-390 | a run in which two events with one merge key leave a drained subscriber without one of them |
| `EventSubscription.UnidentifiedEventsGetLost` | pkg/harnessruntime/event_store.go:202-207 | that happens to any two events without IDs that agree in event name, run ID, thread ID, attempt and resume reason, whatever their data |
| `Digraph.AcyclicExactlyWhenOrdered` | internal/stackcmd/process_launcher.go:454-499 | a graph has no cycle iff its nodes can be put in dependency order |
| `Digraph.ColourWalk.Visit` | internal/stackcmd/manifest.go:197-216 | the three-colour walk finishes a node with everything below it ordered, or returns a chain that repeats a node; it ends because each call colours a new node |
| `Digraph.CheckCycles` | internal/stackcmd/manifest.go:197-222 | the walk over all nodes, in any order, succeeds iff the graph has no cycle, and a reported chain is a real one |
| `ProcessGraph.ValidateProcessGraph` | internal/stackcmd/manifest.go:167-222 | succeeds iff names are non-blank and distinct, dependencies known and not self, and the graph has no cycle, for every map iteration order; each error reported is justified |
| `ProcessGraph.NamesOkExactly` | internal/stackcmd/manifest.go:167-182 | the names are accepted iff each process has an entry of its own under its trimmed name and none is blank |
| `ProcessOrder.DepsOkExactly` | internal/stackcmd/manifest.go:183-195 | the dependencies are accepted iff trimming blanks none of them and the graph read with trimmed names is closed and has no edge from a process to itself |
| `ProcessOrder.WalkTerminatesExactlyWhenAcyclic` | internal/stackcmd/process_launcher.go:465-498 | the order walk, which marks a node only after its recursion, returns iff the graph has no cycle |
| `ProcessOrder.OrderWalk.Visit` | internal/stackcmd/process_launcher.go:466-488 | the recursive closure computes the specified walk |
| `ProcessOrder.ResolveProcessOrder` | internal/stackcmd/process_launcher.go:454-499 | fails iff the validator rejects; otherwise lists each process once, after all its dependencies |
| `ProcessOrder.AcceptedOrderTerminates` | internal/stackcmd/process_launcher.go:454-499 | on every accepted manifest with trimmed dependency names the walk returns |
| `ProcessOrder.OrderTerminatesExactlyWhenAcyclic` | internal/stackcmd/process_launcher.go:465-498 | in general it returns iff the graph with trimmed dependency names has no cycle |
| `ProcessOrder.AcceptanceIsNotEnough` | internal/stackcmd/manifest.go:208 | a cycle spelled with surrounding space is accepted by the validator and never ordered by the walk |
| `ProcessOrder.SpacedManifestIsNeverOrdered` | internal/stackcmd/manifest.go:208 | the failing input: gateway depending on ' worker' and worker on ' gateway' |
| `HostPlan.BuildHostPlan` | internal/stackcmd/bundle.go:216-287 | succeeds iff the graph is accepted; the plan lists the processes and their units in start order and stops them in reverse |
| `HostPlan.Reverse` | internal/stackcmd/bundle.go:264-267 | the shutdown loop reverses the start order |
| `HostPlan.ValidateOrderSet` | internal/stackcmd/bundle.go:495-514 | accepts iff the order has as many names as there are processes, each known and none twice |
| `HostPlan.OrderSetCovers` | internal/stackcmd/bundle.go:495-514 | those checks are enough: every process is then in the order |
| `HostPlan.ValidateHostPlan` | internal/stackcmd/bundle.go:429-473 | accepts iff counts, names, policies and both orders are right |
| `HostPlan.BuiltPlanIsValid` | internal/stackcmd/bundle.go:429-473 | every plan built with normalised options passes its validator |
| `HostPlan.PlanKeepsProcesses` | internal/stackcmd/bundle.go:216-287 | each planned process has its manifest entry's command line, dependencies and ready URL, and the plan carries the options with defaults for unset times, in whole milliseconds |
| `HostPlan.ServiceWaitsForDependencies` | internal/stackcmd/bundle.go:216-287 | each unit runs its own process and waits for exactly the units of the processes it depends on, all of them earlier in the plan |
| `HostPlan.RestartFollowsPolicy` | internal/stackcmd/bundle.go:293-302 | a unit restarts always, never or on failure iff the policy says so, whatever its case and spacing |
| `HostPlan.WriteElectronBundle` | internal/stackcmd/bundle.go:340-367 | when the start order is planned, one entry for each of its names, in order, running the planned process of that name |
| `HostPlan.ValidateElectronBundle` | internal/stackcmd/bundle.go:475-493 | accepts iff the sizes and both orders agree with the plan |
| `HostPlan.AcceptedBundleCovers` | internal/stackcmd/bundle.go:150-170 | a bundle accepted beside an accepted plan has as many processes as the manifest and starts and stops each of them once |
| `HostPlan.WriteThenValidate` | internal/stackcmd/bundle.go:109-147 | whatever can be ordered, with whatever options are accepted, is written as a bundle that passes both validators |
| `HostPlan.ShutdownStopsDependentsFirst` | internal/stackcmd/bundle.go:264-267 | each process is stopped before anything it depends on |
| `ProcessRestart.ProcessLifecycle.PrepareCommand` | internal/stackcmd/process_launcher.go:332-348 | a launch takes the command slot unless a stop was requested or the slot is taken, so two launches never overlap |
| `ProcessRestart.ProcessLifecycle.Start` | internal/stackcmd/process_launcher.go:260-301 | against any script of exits and stops: with a limit at most maxRestarts + 1 launches, every restart wanted by the policy, and the ending told apart correctly |
| `RunState.InMemoryThreadStateStore.MarkThreadStatus` | pkg/harnessruntime/thread_state_store.go:59-64 | load, modify and save do what the specified status update does |
| `RunState.InMemoryThreadStateStore.SetThreadMetadata` | pkg/harnessruntime/thread_state_store.go:66-74 | the same for setting a metadata field |
| `RunState.InMemoryThreadStateStore.ClearThreadMetadata` | pkg/harnessruntime/thread_state_store.go:76-83 | the same for clearing one, which does nothing to an unknown thread |
| `RunServices.InMemoryRunStore.SaveRecord` | pkg/harnessruntime/snapshot_service.go:16-26 | a save replaces the run's record and keeps every run's events |
| `RunServices.InMemoryRunStore.AppendRunEvent` | pkg/harnessruntime/inmemory_store.go:84-104 | an append adds one event to its run and changes no known record |
| `RunServices.InMemoryRunStore.TryCancelStaleRun` | pkg/harnessruntime/inmemory_store.go:61-74 | cancels iff the run is stored, running and stale, and then changes only that record |
| `RunQuery.QuietRunIsCanceled` | pkg/harnessruntime/detached_cancel.go:8-22 | a running run last saved by a begin at t is cancelled by a limit iff t is not after it, so a later begin protects it |
| `RunQuery.QuietPreparedRunIsCanceled` | pkg/harnessruntime/detached_cancel.go:8-22 | the same for a run last saved when it was prepared |
| `RunQuery.LimitsCancel` | pkg/harnessruntime/detached_cancel.go:8-22 | no limit cancels every running run with an ID; a limit none without an update time; what one limit cancels a later one does |
| `RunQuery.CanceledRun` | pkg/harnessruntime/detached_cancel.go:24-33 | a cancelled run is the same run at the same attempt, interrupted, without an error, updated now, and its outcome says so |
| `RunServices.RunStateService.MarkError` | pkg/harnessruntime/run_state_service.go:36-53 | the sequence of writes is the specified error transition on both stores |
| `RunServices.RunStateService.Begin` | pkg/harnessruntime/run_state_service.go:55-69 | the same for begin |
| `RunServices.RunStateService.ReconcileLive` | pkg/harnessruntime/run_state_service.go:71-91 | the same for reconcile |
| `RunServices.RunStateService.MarkCanceled` | pkg/harnessruntime/run_state_service.go:93-110 | the same for cancel |
| `RunServices.RunStateService.ShouldMutateThreadState` | pkg/harnessruntime/run_state_service.go:166-182 | true iff an ID is blank or no other run owns the thread |
| `RunServices.RunStateService.ClearActiveRunOwnership` | pkg/harnessruntime/run_state_service.go:188-207 | clears the owner unless it is another run |
| `RunServices.RunStateService.Prepare` | pkg/harnessruntime/preflight_service.go:87-132 | the same for preflight once the IDs are resolved |
| `RunServices.RunStateService.Apply` | pkg/harnessruntime/completion_service.go:54-150 | the same for completion, with and without a runtime to write to |
| `RunServices.RunStateService.Finalize` | pkg/harnessruntime/coordinator.go:168-184 | the same for the coordinator's finalize |
| `RunOwnership.StepKeepsInv` | pkg/harnessruntime/run_state_service.go:36-142 | a step on a saved run's record keeps the rule that an owner is a saved, running run of its thread iff it does not take a thread for a finished run |
| `RunOwnership.OwnersAreLive` | pkg/harnessruntime/run_state_service.go:152-207 | the rule holds in every state reached from the empty stores by steps that pass that guard |
| `RunOwnership.BeginKeepsInv` | pkg/harnessruntime/run_state_service.go:55-69 | for Begin the guard is that the record's status is running |
| `RunOwnership.ReconcileKeepsInv` | pkg/harnessruntime/run_state_service.go:71-91 | for ReconcileLive it is that another run owns the thread or the saved run is running |
| `RunOwnership.LateBeginRevivesDeadOwner` | pkg/harnessruntime/worker.go:63 | without the guard it fails: a worker that begins a run cancelled before it was picked up makes the dead run the owner |
| `RunOwnership.LateReconcileRevivesDeadOwner` | pkg/harnessruntime/run_state_service.go:71-91 | the same is reached with ReconcileLive and the first record of a run cancelled meanwhile |
| `RunOwnership.FinishRespectsOwnership` | pkg/harnessruntime/run_state_service.go:166-207 | error, cancel and finalize of a run that does not own its thread change no thread at all; of an owner they free that thread and no other; only the run's own record is written |
| `RunOwnership.StoreStaysKeyed` | pkg/harnessruntime/thread_state_store.go:45-90 | whatever IDs callers use, threads are kept under their own trimmed IDs with trimmed statuses, and a blank ID writes nothing |
| `RunOwnership.RightsAreByTrimmedID` | pkg/harnessruntime/run_state_service.go:166-182 | a run may touch its thread iff one of its IDs is blank, the thread has no owner, or the run is the owner, compared without surrounding space |
| `RunOwnership.OwnersAreSetByTrimmedID` | pkg/harnessruntime/run_state_service.go:152-207 | setting and clearing the owner work on trimmed IDs and do nothing with a blank one |
| `RunCompletion.FailureSettlesThread` | pkg/harnessruntime/run_state_service.go:36-53 | after an error or a cancel an owned thread shows that status, has no owner and keeps its task state, and the record carries the status and the error |
| `RunCompletion.FinishSettlesThread` | pkg/harnessruntime/completion_service.go:54-150 | after a finish an owned thread is interrupted iff an interrupt was asked for and is stored, idle otherwise; the next load returns the normal form of the task state the run ended with (the zero state if it has none), which is that state itself iff it is in normal form; everything else and every other thread is untouched |
| `RunCompletion.FinishReportsTheDecision` | pkg/harnessruntime/completion_service.go:97-149 | the saved record has the decision's status, the reason and the blocking tasks and artifacts iff completion was blocked, and the record's own attempt |
| `FinishedTasks.UpsertMerges` | pkg/harnessruntime/task_state.go:225-272 | merging keeps every stored item in its place, gives the first item of each task the status of the task's last update, and appends one item for each new task, in order |
| `FinishedTasks.FinishLeavesTasks` | pkg/harnessruntime/completion_service.go:66-96 | the next load after a finish reads the resolved tasks when none were stored, the stored or else the carried ones when none were resolved, and otherwise the two merged task by task, or the resolved ones alone when the merge has an item without text or status or two in progress |
| `FinishedTasks.WorkerFinishLeavesTasks` | pkg/harnessruntime/worker.go:81-83 | the end of a run inside a worker leaves the same tasks, whoever owns the thread |
| `FinishedTasks.MergeShowsTasks` | pkg/harnessruntime/task_state.go:225-260 | in an accepted merge each resolved task shows with the status of its last item, each stored task that was not resolved shows as it was, and the verified outputs are the union |
| `RunReports.BeginReports` | pkg/harnessruntime/outcome_service.go:42-62 | a begun run reports running with the pending texts, missing and verified outputs of the stored tasks, and its thread shows that |
| `RunReports.PrepareReports` | pkg/harnessruntime/preflight_service.go:87-132 | a prepared run does so with no tasks yet |
| `RunReports.FailureReports` | pkg/harnessruntime/run_state_service.go:36-53 | a failed run reports its error and a cancelled one that it was interrupted, with the stored progress, and a thread it may touch shows it |
| `RunReports.ReconcileReports` | pkg/harnessruntime/outcome_service.go:107-119 | a reconciled record keeps an outcome already running; otherwise it reports the stored progress, or the lifecycle the thread shows when no task is stored |
| `RunReports.FinishReports` | pkg/harnessruntime/completion_service.go:77-149 | a finished run reports the progress of the task state that the next load reads, or what blocked it |
| `RunReports.ObservedProgressIsShown` | pkg/harnessruntime/task_lifecycle.go:91-115 | after a task event the thread shows the run running with the tasks as they then stand |
| `RunCompletion.WorkerFinishIgnoresOwner` | pkg/harnessruntime/worker.go:81-83 | the worker's completion has no such check: a run that does not own its thread overwrites status, interrupts, task state and lifecycle there, only the owner survives, and the thread is left as it was iff it already showed all of that |
| `RunCompletion.WorkerFinishOfOwner` | pkg/harnessruntime/worker.go:81-83 | for a run that may touch its thread the worker's end is the coordinator's finalize |
| `RunCompletion.WorkerRespectsOwnerExactly` | pkg/harnessruntime/worker.go:81-83 | the worker's end leaves the threads as finalize does iff the run may touch its thread or the thread already shows what would be written |
| `RunCompletion.WorkerOverwritesLaterRun` | pkg/harnessruntime/worker.go:63-83 | the failing case is reached: a run begun by a worker, then another prepared on its thread; however the first ends, the second one's thread stops being busy |
| `RunCompletion.BeginTakesThread` | pkg/harnessruntime/run_state_service.go:55-69 | beginning makes the thread busy and owned by the run, shows its lifecycle, keeps all other metadata, and saves the run as running |
| `RunCompletion.ReconcileTakesThread` | pkg/harnessruntime/run_state_service.go:71-91 | reconciling makes the thread busy and owned by the run and shows its lifecycle if it has one; a thread of another run is left alone |
| `RunCompletion.PrepareTakesThread` | pkg/harnessruntime/preflight_service.go:87-132 | preparing does so for a new record at attempt 1, names assistant and graph, and drops a left-over interrupt |
| `RunRecovery.Coordinator.Resume` | pkg/harnessruntime/coordinator.go:127-147 | the method does what the specified resume does to the stores and dispatches the same attempt |
| `RunRecovery.ResumeDispatches` | pkg/harnessruntime/coordinator.go:220-236 | a resume dispatches nothing in exactly two cases: the record in hand is the live attempt asked for, or the saved record is live at the attempt it would start |
| `RunRecovery.ResumeIsIdempotent` | pkg/harnessruntime/coordinator.go:127-147 | repeating a resume with the record first used or the one returned dispatches nothing |
| `RunRecovery.NextResume` | pkg/harnessruntime/coordinator.go:127-147 | after a resume its record is live for that position and trimmed reason only: asked for the same it dispatches nothing, for anything else the next attempt |
| `RunRecovery.ResumedRun` | pkg/harnessruntime/recovery_planner.go:17-61 | a dispatched resume starts the attempt after the record's own, and never the first, from the asked position, for the trimmed reason, running and without an error |
| `RunRecovery.ReusedRecordIsRefreshed` | pkg/harnessruntime/recovery_planner.go:17-61 | a resume that reuses the record in hand reports the run as its thread has it, whatever the record's old outcome said |
| `RunRecovery.ResumeKeepsOwnership` | pkg/harnessruntime/coordinator.go:127-147 | a resume keeps the ownership rule iff it does not reuse a stale live record of a run that is over |
| `RunRecovery.LateResumeRevivesDeadOwner` | pkg/harnessruntime/coordinator.go:127-134 | the failing case is reached: resuming with the first record of a run that was cancelled meanwhile makes the dead run the owner again |
| `RunRecovery.StepKeepsAttempts` | pkg/harnessruntime/recovery_planner.go:17-61 | a step keeps dispatched attempts increasing and the saved attempt the last one iff records are written back at the saved attempt and a resume starts a later one |
| `RunRecovery.AttemptsIncrease` | pkg/harnessruntime/recovery_planner.go:17-37 | over any run of such steps on any number of runs the attempts dispatched for a run strictly increase, so none is dispatched twice |
| `RunRecovery.CurrentRecordsAreCareful` | pkg/harnessruntime/recovery_planner.go:17-61 | resuming from the saved record, or from the one saved just before the attempt now live, meets that condition |
| `RunRecovery.StaleFinishRepeatsAttempt` | pkg/harnessruntime/run_state_service.go:36-53 | without it the rule fails: the late end of attempt k, written after k + 1 was dispatched, makes the next resume dispatch k + 1 again |
| `RunRecovery.StaleFinishIsReached` | pkg/harnessruntime/coordinator.go:127-147 | that is reached: prepare, resume, a late error of the first attempt and a resume of the saved record dispatch the attempts 1, 2 and 2 |
| `RunQuery.QueryService.Run` | pkg/harnessruntime/query_service.go:29-41 | finds the record by trimmed ID, on the thread if one is given |
| `RunQuery.QueriesFind` | pkg/harnessruntime/query_service.go:29-41 | a run is found by its trimmed ID, on the given thread only if one is given |
| `RunQuery.BoundKeeps` | pkg/harnessruntime/query_service.go:29-41 | a record found is the stored one, its outcome at the record's own attempt and with missing lists taken from its lifecycle |
| `RunQuery.QueryService.ListThreadRuns` | pkg/harnessruntime/query_service.go:43-55 | one record for each stored run of the thread, newest first, whatever order the store lists them in |
| `RunQuery.QueryService.LatestActiveRun` | pkg/harnessruntime/query_service.go:65-72 | the newest running run of the thread, or none iff no stored run of it is running |
| `RunQuery.QueryService.SelectJoinRun` | pkg/harnessruntime/query_service.go:74-120 | with a thread state a run is returned iff some stored run of the thread is running, the one returned is running and on the thread, a live owner first, the newest otherwise, whatever active_run_id says |
| `RunQuery.CancelsAtMostOnce` | pkg/harnessruntime/detached_cancel.go:8-33 | of any series of cancels with no save in between exactly one succeeds if some attempt finds the run stale, and none otherwise |
| `RunQuery.DetachedCancelLeavesDeadOwner` | pkg/harnessruntime/inmemory_store.go:61-74 | a detached cancel keeps the ownership rule iff the run is not the owner of its thread |
| `TaskProgress.ThreadTaskLifecycleTracker.Observe` | pkg/harnessruntime/task_lifecycle.go:91-115 | the method does what the specified observation does to the thread store |
| `TaskProgress.UpsertInto` | pkg/harnessruntime/task_lifecycle.go:160-174 | the loop updates the first item of the same key, or appends |
| `TaskProgress.UpsertIsIdempotent` | pkg/harnessruntime/task_lifecycle.go:153-184 | an update keeps the normal form and changes nothing the second time |
| `TaskProgress.ObservedTaskShows` | pkg/harnessruntime/task_lifecycle.go:91-115 | a task that starts or runs shows in progress, a completed one completed, a failed or timed out one pending, unless refused; other events change nothing |
| `TaskProgress.UpsertRefusesExactly` | pkg/harnessruntime/task_lifecycle.go:156-183 | an update is dropped iff it has no text or no known status or would be the second item in progress; otherwise it changes or appends its own item only, and shows |
| `TaskProgress.SecondStartIsDropped` | pkg/harnessruntime/task_lifecycle.go:99-100 | while one task is in progress the start of another leaves the stored task state as it was |
| `TaskProgress.ObserveIsIdempotent` | pkg/harnessruntime/task_lifecycle.go:91-115 | observing an event leaves a stored task state in normal form, touches no other thread, and changes nothing when repeated |
| `Outcomes.LifecycleRoundTrips` | pkg/harnessruntime/task_lifecycle.go:45-80 | in memory a lifecycle survives being stored iff its status has no surrounding space |
| `Outcomes.LifecycleReportsProgress` | pkg/harnessruntime/task_lifecycle.go:25-39 | a lifecycle lists the texts of exactly the items not completed and exactly the outputs expected and not verified |
| `Outcomes.LifecycleRoundTripsThroughJson` | pkg/harnessruntime/task_lifecycle.go:131-151 | through JSON it survives iff, besides, every text in its lists is non-blank and without surplus space |
| `SandboxLeases.HTTPRemoteSandboxServer.Precheck` | pkg/harnessruntime/http_remote_sandbox_server.go:97-108 | the first look refuses iff the table is full, and counts the refusal |
| `SandboxLeases.HTTPRemoteSandboxServer.InsertLease` | pkg/harnessruntime/http_remote_sandbox_server.go:335-349 | the second look inserts iff the table is not full |
| `SandboxLeases.HTTPRemoteSandboxServer.LoadLease` | pkg/harnessruntime/http_remote_sandbox_server.go:352-363 | returns the lease's session and moves its touch time only when asked to |
| `SandboxLeases.HTTPRemoteSandboxServer.TakeLease` | pkg/harnessruntime/http_remote_sandbox_server.go:365-375 | takes exactly that lease off the table and hands out its session once |
| `SandboxLeases.HTTPRemoteSandboxServer.TakeExpired` | pkg/harnessruntime/http_remote_sandbox_server.go:437-461 | in any map order takes exactly the expired leases, counts them, and hands out exactly their sessions |
| `SandboxLeases.HTTPRemoteSandboxServer.TakeAll` | pkg/harnessruntime/http_remote_sandbox_server.go:398-408 | only the first shutdown gets the sessions |
| `SandboxLeases.CapacityCanBeUsed` | pkg/harnessruntime/http_remote_sandbox_server.go:335-349 | exactly as many leases as the limit allows can be had, all of them without a limit, and those too many are counted |
| `SandboxLeases.ShutdownIsOnce` | pkg/harnessruntime/http_remote_sandbox_server.go:398-421 | a second shutdown takes nothing, not even a lease inserted in between |
| `LeaseProtocol.CapacityHolds` | pkg/harnessruntime/http_remote_sandbox_server.go:329-350 | under every interleaving of acquires, releases, sweeps and shutdowns the table never exceeds its cap |
| `LeaseProtocol.StepKeepsPlaces` | pkg/harnessruntime/http_remote_sandbox_server.go:329-375 | a step keeps every created session in exactly one place iff it does not insert under a lease ID in use |
| `LeaseProtocol.InsertKeepsPlaces` | pkg/harnessruntime/http_remote_sandbox_server.go:335-349 | for the locked half of an acquire: iff the table is full or the lease ID is fresh |
| `LeaseProtocol.SessionsAreNeverLost` | pkg/harnessruntime/http_remote_sandbox_server.go:329-466 | in every reachable state with fresh lease IDs each session is held by one acquirer, in the table once, held by a closer, or closed once, and evictedLeases is the number of sessions evicted |
| `LeaseProtocol.QuietSystemIsAccountedFor` | pkg/harnessruntime/http_remote_sandbox_server.go:398-421 | when nothing is in flight each session ever created is leased under one ID or was closed exactly once |
| `LeaseTiming.TouchedLeaseSurvives` | pkg/harnessruntime/http_remote_sandbox_server.go:437-460 | a lease touched at gaps shorter than the idle limit is never evicted, whatever else happens |
| `LeaseTiming.UnusedLeaseIsEvicted` | pkg/harnessruntime/http_remote_sandbox_server.go:437-460 | a lease nobody uses is evicted by exactly the sweeps whose clock is the idle limit past its insert's, or past its last touch |
| `LeaseTiming.EventKeepsFresh` | pkg/harnessruntime/http_remote_sandbox_server.go:335-349 | after an event no lease is older than the last sweep allowed iff the event is not an insert that waited too long for the lock |
| `LeaseTiming.NoLeaseIdlesLong` | pkg/harnessruntime/http_remote_sandbox_server.go:423-466 | from the first sweep on no lease has been idle for the idle limit plus the time since the last sweep's clock |
| `LeaseTiming.PromptInsertsAreInTime` | pkg/harnessruntime/http_remote_sandbox_server.go:335-349 | it is enough that inserts get the lock within the idle limit of reading the clock |
| `LeaseTiming.LateInsertIdles` | pkg/harnessruntime/http_remote_sandbox_server.go:335-349 | without that the bound fails by any amount |
| `RunQueue.StepKeepsInv` | pkg/harnessruntime/run_queue.go:63-122 | every step of submitters and workers keeps the invariant |
| `RunQueue.JobsAreServedOnce` | pkg/harnessruntime/run_queue.go:101-122 | under every interleaving an accepted job is in exactly one of buffer, one worker or answered; it is executed and answered at most once, an answered one exactly once iff its envelope decodes; a worker can always send its reply |
| `RunQueue.SubmitterGetsItsOwnReply` | pkg/harnessruntime/run_queue.go:63-88 | a submitter that gets a reply gets the decoding error of its own envelope or the outcome of the execution of its own job |
| `RunQueue.ReplyIsTheExecutions` | pkg/harnessruntime/run_queue.go:99-122 | a submitter gets the decoding error alone, or for an execution of its own job: a failure as it is, a result that cannot be encoded with the encoding error, and otherwise what decoding its payload gives; with a codec that gives back what it encoded exactly what the execution returned |
| `RunQueue.BufferHolds` | pkg/harnessruntime/run_queue.go:62-87 | the buffer never holds more than it was made for, a waiting submitter can enqueue iff it has room, and a new one can always submit |
| `RunQueue.WorkersMakeProgress` | pkg/harnessruntime/run_queue.go:101-122 | until every accepted job is answered some worker step is possible, and each brings that one step closer |
| `RunQueue.InProcessRunQueue.constructor` | pkg/harnessruntime/run_queue.go:39-61 | non-positive buffer and worker counts become the defaults |
| `RunQueue.InProcessRunQueue.Run` | pkg/harnessruntime/run_queue.go:101-122 | a worker emptying a closed queue answers every job with the outcome of its own envelope, closes its channel and touches no other |
| `LoopPolicy.ToolLoopState.Evaluate` | pkg/agent/policy.go:197-239 | appends, trims and counts as specified; calls without a hash change nothing |
| `LoopPolicy.HistoryIsTheWindow` | pkg/agent/policy.go:206-213 | the history is always the last W hashes seen |
| `LoopPolicy.StopsExactlyAtTheLimit` | pkg/agent/policy.go:215-227 | an evaluation stops the run iff its hash occurs L times or more among the last W, itself included |
| `LoopPolicy.WarnsOnce` | pkg/agent/policy.go:228-237 | no hash is warned about twice |
| `LoopPolicy.WarnsExactly` | pkg/agent/policy.go:197-232 | an evaluation warns iff its hash occurs often enough in the window to warn and not to stop, and was not warned about before |
| `LoopPolicy.WarnedBeforeStopped` | pkg/agent/policy.go:221-237 | if the warning threshold is below the limit, the first hash that stops a run was warned about before |
| `LoopPolicy.FewHashesAreStopped` | pkg/agent/policy.go:197-239 | over at most k hashes, with k(L-1)+1 <= W, the run stops within k(L-1)+1 evaluations |
| `LoopPolicy.ShortWindowNeverStops` | pkg/agent/policy.go:206-213 | with a shorter window a cycle over k hashes is never stopped, so that bound is exact |
| `LoopPolicy.EvaluateRounds` | pkg/agent/react.go:390-411 | the agent's rounds stop iff judging them all would stop any, and at the first such round |
| `ToolCallKey.HashToolCalls` | pkg/agent/policy.go:390-424 | the key is the kept calls in order, and there is none iff no call is kept |
| `ToolCallKey.KeyForgetsOnlyOrder` | pkg/agent/policy.go:412-417 | two rounds share a key iff they keep the same calls with the same repetitions |
| `ToolCallKey.KeysAgreeExactly` | pkg/agent/policy.go:390-424 | two rounds share a key iff for every name and arguments they hold equally many usable calls with that trimmed name and those arguments |
| `ToolCallKey.SingleCallsShareTheKey` | pkg/agent/policy.go:390-424 | rounds of one usable call share a key iff trimmed names and arguments agree |
| `ToolCallKey.ReorderedCallsShareTheKey` | pkg/agent/policy.go:390-424 | reordering the calls of a round does not change its key |
| `ReadBudget.ReadFileBudgetState.BeforeCall` | pkg/agent/react.go:973-1020 | serves a cached read, refuses past the call limit, and otherwise lets the call through |
| `ReadBudget.ReadFileBudgetState.AfterCall` | pkg/agent/react.go:1022-1059 | counts the call and the characters shown, and caches a completed read |
| `ReadBudget.ReadFileBudgetState.PerformToolCall` | pkg/agent/react.go:731-777 | the read_file path of a call; a guardrail's answer is outside the budget |
| `ReadBudget.TruncatedLength` | pkg/agent/react.go:1133-1151 | content within the limit is untouched; longer content comes out at exactly the limit, beginning like the original, or as the exhausted marker when nothing is left |
| `ReadBudget.KeyIsInjective` | pkg/agent/react.go:1080-1120 | two calls share a cache key iff they read the same lines of the same trimmed path; line numbers come as integers, as floats or as text |
| `ReadBudget.LineNamed` | pkg/agent/react.go:1080-1122 | an argument names its integer, a float without its fraction, or the number a text spells; the snake-case key counts before the camel-case one |
| `ReadBudget.SameLinesShareTheKey` | pkg/agent/react.go:1080-1096 | calls that name paths and lines share a key iff trimmed paths, first and last lines agree |
| `ReadBudget.ServedExactlyTheSameLines` | pkg/agent/react.go:973-1059 | over any series a call is served from the cache iff an earlier read of the same lines of the same path completed, and with that read's content |
| `ReadBudget.ReadReports` | pkg/agent/react.go:1022-1059 | a read keeps its result but for the content and reports the counters that include it; a guarded call changes nothing |
| `ReadBudget.ChargedContent` | pkg/agent/react.go:1027-1043 | content that fits the limits, or meets none, is shown whole; otherwise exactly as much as is left |
| `ReadBudget.BudgetHolds` | pkg/agent/react.go:1022-1048 | over any series of calls CallsUsed and CharsUsed are exactly what reads returned; reads stay within the call limit, characters within the limit plus one exhausted marker a read |
| `ReadBudget.RepeatIsServed` | pkg/agent/react.go:977-993 | once lines were read they are served from the cache: same content, both counters unchanged |
| `ReadBudget.RefusedExactlyWhenUsedUp` | pkg/agent/react.go:995-1019 | over any series a call is refused iff the reads made so far use up the limit and none completed for the same lines |
| `ToolCalls.NormalizeCallFacts` | pkg/models/tool_normalize.go:15-32 | exactly the usable calls are kept, in normal form, under their own trimmed ID if they have one |
| `ToolCalls.NormalizeCallKeeps` | pkg/models/tool_normalize.go:15-34 | a kept call has its name trimmed, is pending if it had no status, and keeps arguments and times |
| `ToolCalls.UsableExactly` | pkg/models/tool_normalize.go:15-34 | a call is usable iff it has a name, its status is unset or one of four words, and its times are in order |
| `ToolCalls.NormalizeResultFacts` | pkg/models/tool_normalize.go:36-60 | a result is kept iff it names call and tool and its status agrees with its error; an unset status becomes failed with an error and completed without |
| `ToolCalls.NormalCallIsFixed` | pkg/models/tool_normalize.go:15-32 | normalising leaves a call alone iff it is in normal form |
| `ToolCalls.NormalResultIsFixed` | pkg/models/tool_normalize.go:36-53 | normalising a result twice is the same as once |
| `ToolHistory.NormalizeToolCalls` | pkg/agent/react.go:1784-1803 | the loop keeps the first normalised call of each ID |
| `ToolHistory.PatchDanglingToolCalls` | pkg/agent/react.go:1531-1599 | the loops compute the specified repair |
| `RepairedHistory.RepairKeepsTheConversation` | pkg/agent/react.go:1550-1593 | the original messages come through in order, changed only by normalising their calls; results are made up for exactly the call IDs that had none, once each, right after the message whose call they answer |
| `RepairedHistory.CounterCounts` | pkg/models/tool_normalize.go:15-33 | the counter for new IDs moves on by one for each call with a name and no ID |
| `RepairedHistory.RepairSettles` | pkg/agent/react.go:1531-1599 | afterwards every tool call is usable and has a result |
| `RepairedHistory.SettledIsLeftAlone` | pkg/agent/react.go:1595-1598 | a conversation is returned as it came iff every call in it is usable and has a result |
| `RepairedHistory.RepairIsIdempotent` | pkg/agent/react.go:1531-1599 | repairing again changes nothing |
| `ToolRounds.ExecuteToolCalls` | pkg/agent/react.go:521-579 | however parallel tasks interleave, the records of a round come out in call order: all of them, those up to the first call that pauses it, or none when that call aborts it |
| `ToolRounds.CollectInOrder` | pkg/agent/react.go:653-659 | results that arrive in any order are put back in call order |
| `ToolRounds.TruncateTaskToolCalls` | pkg/agent/react.go:1153-1179 | keeps every other call and exactly the first tasks up to the limit, in order |
| `TaskState.NormalizeTaskStatus` | pkg/harness/task_state.go:27-38 | a status normalises to a known one or to nothing |
| `TaskState.NormalizeTaskStrings` | pkg/harness/task_state.go:194-215 | the loop computes the specified list |
| `TaskState.NormalizeTaskState` | pkg/harness/task_state.go:40-70 | the loop computes the specified normal form or error |
| `TaskState.MissingExpectedOutputs` | pkg/harness/task_state.go:147-165 | the loop computes the expected outputs not verified |
| `TaskState.NormalizeIntoNormalForm` | pkg/harness/task_state.go:40-70 | succeeds iff every item has text and a known status and at most one is in progress; the result is in normal form and normalising it again changes nothing |
| `TaskState.NormalizeReportsTheFirst` | pkg/harness/task_state.go:40-70 | the error is about the first item without text or known status, and only without such an item that several are in progress |
| `TaskState.NormalFormIsFixed` | pkg/harness/task_state.go:40-70 | normalising leaves a state alone iff it is in normal form: tidy texts, known statuses, one item in progress at most, no output twice |
| `TaskState.MergeVerifiesTheUnion` | pkg/harness/task_state.go:72-94 | a successful merge verifies exactly what either side verified |
| `TaskState.MergePrefersTheOverlay` | pkg/harness/task_state.go:72-94 | a successful merge has the overlay's items and expectations where it has any, else the base's, each in normal form |
| `TaskState.MergeNeverLosesProgress` | pkg/harness/task_state.go:72-94 | unless the overlay sets new expectations an output missing after a merge was missing before |
| `TaskState.StoredStateParsesToNormalForm` | pkg/harness/task_state.go:96-124 | parsing a stored state gives what normalising it gives; only the zero state, stored as a nil map, is lost when JSON turns it into null |
| `TaskState.StoredStateRoundTrips` | pkg/harness/task_state.go:167-192 | in memory the stored form parses back to the state iff it is a normal form, through JSON iff it is a non-zero one |

## Left out

- RunEvents.InMemoryRunEventStore.RecordWithContext: one recorder at a time; reading the index and appending are separate calls in the program, and two recorders on one run may draw the same ID. Fewer than 2^63 events.
- RunEvents.SQLiteRunEventStore.AppendRunEvent: statements are assumed to succeed; the row codec is assumed to round-trip.
- EventSubscription.RunKeepsInv: unsubscribing, closing channels and replacing a log under a live subscription are not steps of the protocol.
- ProcessOrder.ResolveProcessOrder: total only where the walk returns; where it does not is stated exactly by OrderTerminatesExactlyWhenAcyclic.
- HostPlan.WriteThenValidate: the files are values here; writing and reading JSON are assumed to round-trip, and the process and unit files whose presence the program also checks are left out.
- ProcessRestart.ProcessLifecycle.Start: what the operating system and callers do comes as a script; waiting for dependencies and the delay between restarts are left out, and so is `dependencyReadyURLs`.
- RunServices.RunStateService.Finalize: the lifecycle hooks are left out.
- RunServices.RunStateService.Apply: the completion gate's decision and the task state the run resolved come in as values (`Finish`).
- RunServices.RunStateService.Prepare: starts from resolved IDs; loading the session and assembling messages are left out.
- RunOwnership.OwnersAreLive: operations are atomic steps; detached cancels are outside it and treated by DetachedCancelLeavesDeadOwner.
- RunRecovery.AttemptsIncrease: one step for each operation; the dispatcher itself, and the plan a caller may build with `ResumePlan`, are not modelled.
- RunQuery.QueryService.SelectJoinRun: whether something other than the thread store knows the thread is a parameter.
- RunServices.InMemoryRunStore.TryCancelStaleRun: the SQLite store's cancel does the same in a transaction and is not modelled separately.
- LeaseProtocol.SessionsAreNeverLost: lease IDs are fresh tokens; an acquire that was past the first look may still insert after a shutdown, so an empty table after `Close` is not claimed.
- RunQueue.InProcessRunQueue.Run: one worker on a closed queue; several workers at once are the step model of JobsAreServedOnce.
- RunReports.FinishReports: the run may touch its thread; a run that does not own it reports the tasks it resolved itself.
- RunQueue.JobsAreServedOnce: closing the queue while submitting is left out, as are panics in an executor.
- LoopPolicy.ToolLoopState.Evaluate: a hash is any value; MD5 is taken not to collide.
- ToolCallKey.HashToolCalls: arguments are their canonical JSON text; normalising argument keys is not modelled.
- ReadBudget.KeyIsInjective: floats out of the 64-bit range, whose conversion Go leaves open, and paths given by values with their own text form are not modelled.
- ReadBudget.BudgetHolds: calls are made one at a time, as the agent makes them.
- ToolCalls.NormalizeCallFacts: arguments are taken as already normalised; the trimming of their keys, where two keys may clash, is not modelled.
- ToolCalls.NormalizeCallKeeps: a new ID carries the clock's reading besides its number; the model leaves the clock out.
- ToolCalls.NormalCallIsFixed: arguments again; a call whose argument keys are untidy is changed by the program.
- RepairedHistory.RepairSettles: message IDs and times are left out, and IDs the counter will give are assumed not to be in use already.
- ToolRounds.ExecuteToolCalls: what each call returns and whether it pauses or aborts the round are given; emitted events are left out.
- TaskState.StoredStateParsesToNormalForm: only values that the runtime itself stores or reads back from JSON; other Go types that marshal to JSON are left out.
- Strings are sequences of code points; invalid UTF-8, and case folding beyond the letters that fold to ASCII, are not modelled.
- Merging streamed tool-call fragments, the write_todos reminder, structured-output repair, retry prompts and guardrail providers: keyword and prompt text with little state.
- The JSON-file and remote stores: the same contracts over other media.
- HTTP handlers, routing, clients, configuration defaults and logging.
