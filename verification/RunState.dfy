/** Who owns a thread: the run records, the thread states, and the service that moves a run
    through its life (pkg/harnessruntime/run_state_service.go, preflight_service.go,
    completion_service.go, coordinator.go, inmemory_store.go, thread_state_store.go,
    outcome_service.go). */
module RunState {
  import opened GoStrings
  import opened Outcomes
  import opened Wrappers
  import T = TaskState

  /** Times are instants; 0 is Go's zero time. */
  datatype RunRecord = RunRecord(
    runID: string, threadID: string, assistantID: string, attempt: int, resumeFromEvent: int, resumeReason: string,
    status: string, error: string, outcome: Descriptor, createdAt: int, updatedAt: int)

  /** The metadata keys this runtime writes; any other key is `Other`. */
  datatype MetaKey =
    | ActiveRunID | LastRunID | AssistantID | GraphID | LifecycleKey | TaskStateKey | Interrupts | Title
    | Other(name: string)

  datatype Thread = Thread(threadID: string, status: string, metadata: map<MetaKey, T.Any>)

  datatype World = World(runs: map<string, RunRecord>, threads: map<string, Thread>)

  const NO_THREAD := Thread("", "", map[])

  /** `isRunningStatus`: a blank status counts as running. */
  predicate IsRunning(status: string) {
    var word := ToLower(TrimSpace(status));
    word == "" || word == "running" || word == "queued" || word == "busy"
  }

  // ---- the thread store -----------------------------------------------------------------

  function LoadOrNew(threads: map<string, Thread>, id: string): Thread {
    if id in threads then threads[id] else NO_THREAD
  }

  function SaveThread(threads: map<string, Thread>, t: Thread): map<string, Thread> {
    if Blank(t.threadID) then threads else threads[t.threadID := t]
  }

  function MarkStatus(threads: map<string, Thread>, id: string, status: string): map<string, Thread> {
    SaveThread(threads, LoadOrNew(threads, id).(threadID := TrimSpace(id), status := TrimSpace(status)))
  }

  function SetMeta(threads: map<string, Thread>, id: string, key: MetaKey, value: T.Any): map<string, Thread> {
    var t := LoadOrNew(threads, id);
    SaveThread(threads, t.(threadID := TrimSpace(id), metadata := t.metadata[key := value]))
  }

  function ClearMeta(threads: map<string, Thread>, id: string, key: MetaKey): map<string, Thread> {
    if id in threads then SaveThread(threads, threads[id].(metadata := threads[id].metadata - {key})) else threads
  }

  class InMemoryThreadStateStore {
    var states: map<string, Thread>

    constructor ()
      ensures states == map[]
    {
      states := map[];
    }

    method LoadThreadRuntimeState(id: string) returns (state: Thread, found: bool)
      ensures found <==> id in states
      ensures state == LoadOrNew(states, id)
    {
      if id in states {
        return states[id], true;
      }
      return NO_THREAD, false;
    }

    method SaveThreadRuntimeState(state: Thread)
      modifies this
      ensures states == SaveThread(old(states), state)
    {
      if Blank(state.threadID) {
        return;
      }
      states := states[state.threadID := state];
    }

    method MarkThreadStatus(id: string, status: string)
      modifies this
      ensures states == MarkStatus(old(states), id, status)
    {
      var state, _ := LoadThreadRuntimeState(id);
      state := state.(threadID := TrimSpace(id));
      state := state.(status := TrimSpace(status));
      SaveThreadRuntimeState(state);
    }

    method SetThreadMetadata(id: string, key: MetaKey, value: T.Any)
      modifies this
      ensures states == SetMeta(old(states), id, key, value)
    {
      var state, _ := LoadThreadRuntimeState(id);
      state := state.(threadID := TrimSpace(id));
      state := state.(metadata := state.metadata[key := value]);
      SaveThreadRuntimeState(state);
    }

    method ClearThreadMetadata(id: string, key: MetaKey)
      modifies this
      ensures states == ClearMeta(old(states), id, key)
    {
      var state, found := LoadThreadRuntimeState(id);
      if !found {
        return;
      }
      state := state.(metadata := state.metadata - {key});
      SaveThreadRuntimeState(state);
    }
  }

  // ---- describing outcomes --------------------------------------------------------------

  function Describe(record: RunRecord, outcome: RunOutcome, error: string, taskState: T.TaskState,
                    paused: bool): Descriptor {
    var lifecycle := DescribeLifecycle(outcome, taskState, paused);
    Descriptor(outcome.runStatus, outcome.interrupted, error, lifecycle.pendingTasks, lifecycle.expectedArtifacts,
               taskState, lifecycle, record.attempt, record.resumeFromEvent, record.resumeReason)
  }

  function BindRecord(record: RunRecord, d: Descriptor): Descriptor {
    d.(pendingTasks := OrElse(d.pendingTasks, d.lifecycle.pendingTasks),
       expectedArtifacts := OrElse(d.expectedArtifacts, d.lifecycle.expectedArtifacts),
       attempt := record.attempt, resumeFromEvent := record.resumeFromEvent, resumeReason := record.resumeReason)
  }

  function MetaValue(t: Thread, key: MetaKey): T.Any {
    if key in t.metadata then t.metadata[key] else T.Null
  }

  function StoredTaskState(threads: map<string, Thread>, id: string): T.TaskState {
    match T.ParseTaskState(MetaValue(LoadOrNew(threads, id), TaskStateKey))
    case Some(state) => state
    case None => T.ZERO
  }

  function NormalizedTaskState(threads: map<string, Thread>, id: string): T.TaskState {
    match T.Normalized(StoredTaskState(threads, id))
    case Ok(state) => state
    case Err(_) => T.ZERO
  }

  function DescribeLiveRunning(record: RunRecord, threads: map<string, Thread>): Descriptor {
    var taskState := StoredTaskState(threads, record.threadID);
    var outcome := Describe(record, RunOutcome(false, "running"), "", taskState, false);
    var lifecycle := ParseLifecycle(MetaValue(LoadOrNew(threads, record.threadID), LifecycleKey));
    if taskState.IsZero() && !lifecycle.IsZero() then
      outcome.(lifecycle := lifecycle, pendingTasks := lifecycle.pendingTasks,
               expectedArtifacts := lifecycle.expectedArtifacts)
    else outcome
  }

  // ---- ownership ------------------------------------------------------------------------

  /** The run named by a thread's `active_run_id`, or "". */
  function Active(t: Thread): string {
    var value := MetaValue(t, ActiveRunID);
    if value.Text? then TrimSpace(value.text) else ""
  }

  function ActiveOf(threads: map<string, Thread>, id: string): string {
    if id in threads then Active(threads[id]) else ""
  }

  predicate HasIDs(record: RunRecord) {
    !Blank(record.threadID) && !Blank(record.runID)
  }

  /** `shouldMutateThreadState`: no other run owns the record's thread. */
  predicate CanMutate(threads: map<string, Thread>, record: RunRecord) {
    var active := ActiveOf(threads, TrimSpace(record.threadID));
    !HasIDs(record) || active == "" || active == TrimSpace(record.runID)
  }

  function SetOwner(threads: map<string, Thread>, record: RunRecord): map<string, Thread> {
    if HasIDs(record) then
      var threadID, runID := TrimSpace(record.threadID), T.Text(TrimSpace(record.runID));
      SetMeta(SetMeta(threads, threadID, LastRunID, runID), threadID, ActiveRunID, runID)
    else threads
  }

  function ClearOwner(threads: map<string, Thread>, record: RunRecord): map<string, Thread> {
    if HasIDs(record) && CanMutate(threads, record) then ClearMeta(threads, TrimSpace(record.threadID), ActiveRunID)
    else threads
  }

  function SaveRun(w: World, record: RunRecord): World {
    w.(runs := w.runs[record.runID := record])
  }

  function SetLifecycle(threads: map<string, Thread>, id: string, l: TaskLifecycle): map<string, Thread> {
    SetMeta(threads, id, LifecycleKey, LifecycleValue(l))
  }

  // ---- the operations -------------------------------------------------------------------

  /** What every failing or cancelled end of a run does once the final record is known. */
  function Close(w: World, record: RunRecord, threadStatus: string): World {
    var threads := if CanMutate(w.threads, record)
                   then MarkStatus(SetLifecycle(w.threads, record.threadID, record.outcome.lifecycle),
                                   record.threadID, threadStatus)
                   else w.threads;
    SaveRun(w, record).(threads := ClearOwner(threads, record))
  }

  function ErrorRecord(w: World, record: RunRecord, error: string, now: int): RunRecord {
    var outcome := Describe(record, RunOutcome(false, "error"), error, NormalizedTaskState(w.threads, record.threadID),
      false);
    record.(status := "error", error := error, outcome := outcome, updatedAt := now)
  }

  function MarkError(w: World, record: RunRecord, error: string, now: int): World {
    Close(w, ErrorRecord(w, record, error, now), "error")
  }

  function CanceledRecord(w: World, record: RunRecord, now: int): RunRecord {
    var outcome := Describe(record, RunOutcome(true, "interrupted"), "",
      NormalizedTaskState(w.threads, record.threadID), false);
    record.(status := "interrupted", error := "", outcome := outcome, updatedAt := now)
  }

  function MarkCanceled(w: World, record: RunRecord, now: int): World {
    Close(w, CanceledRecord(w, record, now), "interrupted")
  }

  function BegunRecord(w: World, record: RunRecord, now: int): RunRecord {
    var r := record.(status := if record.status == "" then "running" else record.status);
    r.(outcome := Describe(r, RunOutcome(false, "running"), "", NormalizedTaskState(w.threads, r.threadID), false),
      updatedAt := now)
  }

  function Begin(w: World, record: RunRecord, now: int): World {
    var r := BegunRecord(w, record, now);
    var threads := MarkStatus(SetLifecycle(w.threads, r.threadID, r.outcome.lifecycle), r.threadID, "busy");
    SaveRun(w, r).(threads := SetOwner(threads, r))
  }

  function ReconciledRecord(w: World, record: RunRecord): RunRecord {
    var r := record.(status := if record.status == "" then "running" else record.status);
    r.(outcome := if IsRunning(r.outcome.runStatus) then BindRecord(r, r.outcome)
      else DescribeLiveRunning(r, w.threads))
  }

  /** Takes the thread for a run that is already live; saves no record. */
  function ReconcileLive(w: World, record: RunRecord): World {
    var r := ReconciledRecord(w, record);
    if CanMutate(w.threads, r) then
      var shown := if r.outcome.lifecycle.IsZero() then w.threads
        else SetLifecycle(w.threads, r.threadID, r.outcome.lifecycle);
      w.(threads := SetOwner(MarkStatus(shown, r.threadID, "busy"), r))
    else w
  }

  function PreparedRecord(threadID: string, assistantID: string, runID: string, now: int): RunRecord {
    var r := RunRecord(runID, threadID, assistantID, 1, 0, "", "running", "", NO_DESCRIPTOR, now, now);
    r.(outcome := Describe(r, RunOutcome(false, "running"), "", T.ZERO, false))
  }

  /** Preflight: a new run takes the thread, whoever owned it. */
  function Prepare(w: World, threadID: string, assistantID: string, runID: string, now: int): World {
    var r := PreparedRecord(threadID, assistantID, runID, now);
    var graph := if Blank(assistantID) then "lead_agent" else TrimSpace(assistantID);
    var t1 := MarkStatus(w.threads, threadID, "busy");
    var t2 := SetMeta(t1, threadID, AssistantID, T.Text(assistantID));
    var t3 := SetMeta(t2, threadID, GraphID, T.Text(graph));
    var t4 := SetMeta(t3, threadID, LastRunID, T.Text(runID));
    var t5 := SetMeta(t4, threadID, ActiveRunID, T.Text(runID));
    var t6 := SetMeta(t5, threadID, LifecycleKey, LifecycleValue(r.outcome.lifecycle));
    SaveRun(w, r).(threads := ClearMeta(t6, threadID, Interrupts))
  }

  /** What the agent run hands to completion: a title, the task state it resolved, the lifecycle
      state's own task state, and the completion gate's decision. */
  datatype Finish = Finish(
    title: string, resolved: Option<T.TaskState>, carried: Option<T.TaskState>,
    interruptRequested: bool, allowed: bool, outcome: RunOutcome, reason: string,
    pendingTasks: seq<string>, expectedArtifacts: seq<string>, interrupt: T.Any)

  function TaskItemKey(item: T.TaskItem): string {
    if Collapse(item.id) != "" then "id:" + Collapse(item.id) else "text:" + Collapse(item.text)
  }

  /** The items with `update` written over the first item of the same key, or appended. */
  function UpsertItem(items: seq<T.TaskItem>, update: T.TaskItem): seq<T.TaskItem> {
    if items == [] then [update]
    else if TaskItemKey(items[0]) == TaskItemKey(update) then
      [items[0].(status := update.status, id := if items[0].id == "" then update.id else items[0].id)] + items[1..]
    else [items[0]] + UpsertItem(items[1..], update)
  }

  function UpsertItems(items: seq<T.TaskItem>, updates: seq<T.TaskItem>): seq<T.TaskItem>
    decreases |updates|
  {
    if updates == [] then items else UpsertItems(UpsertItem(items, updates[0]), updates[1..])
  }

  function MergeProgress(base: T.TaskState, update: T.TaskState): Result<T.TaskState, T.TaskError> {
    if base.IsZero() then T.Normalized(update)
    else if update.IsZero() then T.Normalized(base)
    else
      T.Normalized(T.TaskState(
        UpsertItems(base.items, update.items),
        if update.expectedOutputs != [] then update.expectedOutputs else base.expectedOutputs,
        base.verifiedOutputs + update.verifiedOutputs))
  }

  /** The task state a finish leaves, given the stored one. */
  function FinishedTaskState(stored: T.TaskState, f: Finish): T.TaskState {
    match f.resolved
    case Some(resolved) =>
      (match MergeProgress(stored, resolved)
       case Ok(merged) => merged
       case Err(_) => resolved)
    case None => if stored.IsZero() && f.carried.Some? then f.carried.value else stored
  }

  function CompletionDescriptor(threadID: string, f: Finish, taskState: T.TaskState): Descriptor {
    var record := RunRecord("", threadID, "", 0, 0, "", "", "", NO_DESCRIPTOR, 0, 0);
    if f.interruptRequested then Describe(record, f.outcome, "", taskState, true)
    else if !f.allowed then
      var d := Describe(record, f.outcome, f.reason, taskState, false);
      d.(pendingTasks := f.pendingTasks, expectedArtifacts := f.expectedArtifacts,
         lifecycle := d.lifecycle.(pendingTasks := f.pendingTasks, expectedArtifacts := f.expectedArtifacts))
    else Describe(record, f.outcome, "", taskState, false)
  }

  /** `CompletionService.Apply`: what a finish writes to its thread, and what it reports.  With
      `owner` false the service has no runtime and writes nothing. */
  function Complete(threads: map<string, Thread>, owner: bool, rawThreadID: string, f: Finish)
    : (map<string, Thread>, Descriptor)
  {
    var threadID := TrimSpace(rawThreadID);
    if threadID == "" then (threads, NO_DESCRIPTOR)
    else
      var t1 := if owner && !Blank(f.title) then SetMeta(threads, threadID, Title, T.Text(TrimSpace(f.title)))
        else threads;
      var taskState := FinishedTaskState(if owner then StoredTaskState(t1, threadID) else T.ZERO, f);
      var d := CompletionDescriptor(threadID, f, taskState);
      if !owner then (t1, d)
      else
        var t2 := if taskState.IsZero() then ClearMeta(t1, threadID, TaskStateKey)
          else SetMeta(t1, threadID, TaskStateKey, T.Value(taskState));
        var t3 := if f.interruptRequested then SetMeta(t2, threadID, Interrupts, T.List([f.interrupt]))
          else ClearMeta(t2, threadID, Interrupts);
        var t4 := SetMeta(t3, threadID, LifecycleKey, LifecycleValue(d.lifecycle));
        (MarkStatus(t4, threadID, if f.interruptRequested then "interrupted" else "idle"), d)
  }

  function FinalRecord(record: RunRecord, d: Descriptor, now: int): RunRecord {
    var bound := BindRecord(record, BindRecord(record, d));
    record.(status := bound.runStatus, error := bound.error, outcome := bound, updatedAt := now)
  }

  /** `RunStateService.Finalize`. */
  function FinalizeState(w: World, record: RunRecord): World {
    var threads := if !CanMutate(w.threads, record) then w.threads
                   else if record.outcome.lifecycle.IsZero() then ClearMeta(w.threads, record.threadID, LifecycleKey)
                   else SetLifecycle(w.threads, record.threadID, record.outcome.lifecycle);
    SaveRun(w, record).(threads := ClearOwner(threads, record))
  }

  /** `Coordinator.Finalize`, lifecycle hooks aside. */
  function Finalize(w: World, threadID: string, record: RunRecord, f: Finish, now: int): World {
    var (threads, d) := Complete(w.threads, CanMutate(w.threads, record), threadID, f);
    FinalizeState(w.(threads := threads), FinalRecord(record, d, now))
  }
}
