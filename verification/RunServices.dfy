/** The services that move runs through their lives, writing to an in-memory run store and
    thread store in the order the program does.  Each method does what the function of the
    same name in `RunState` says (pkg/harnessruntime/run_state_service.go,
    preflight_service.go, coordinator.go, completion_service.go, inmemory_store.go,
    snapshot_service.go). */
module RunServices {
  import opened GoStrings
  import opened Outcomes
  import opened Wrappers
  import S = RunState
  import T = TaskState
  import E = RunEvents

  datatype RunSnapshot = RunSnapshot(record: S.RunRecord, events: seq<E.RunEvent>)

  const NO_RECORD := S.RunRecord("", "", "", 0, 0, "", "", "", NO_DESCRIPTOR, 0, 0)

  function EventsOf(snapshots: map<string, RunSnapshot>, runID: string): seq<E.RunEvent> {
    if runID in snapshots then snapshots[runID].events else []
  }

  function RecordsOf(snapshots: map<string, RunSnapshot>): map<string, S.RunRecord> {
    map id | id in snapshots :: snapshots[id].record
  }

  /** `canCancelDetachedRecord`. */
  predicate IsStale(record: S.RunRecord, staleBefore: int) {
    !Blank(record.runID) && S.IsRunning(record.status) &&
    (staleBefore == 0 || (record.updatedAt != 0 && record.updatedAt <= staleBefore))
  }

  /** `applyDetachedCancel`. */
  function DetachedCancel(record: S.RunRecord, now: int): S.RunRecord {
    var r := record.(status := "interrupted", error := "", updatedAt := now);
    r.(outcome := S.BindRecord(r, NO_DESCRIPTOR.(runStatus := "interrupted", interrupted := true)))
  }

  /** What cancelling a run that has gone quiet saves for it; None when the run is left alone. */
  function TryCancel(runs: map<string, S.RunRecord>, runID: string, staleBefore: int, now: int): Option<S.RunRecord> {
    if runID in runs && IsStale(runs[runID], staleBefore) then Some(DetachedCancel(runs[runID], now)) else None
  }

  class InMemoryRunStore {
    var snapshots: map<string, RunSnapshot>

    constructor ()
      ensures snapshots == map[]
    {
      snapshots := map[];
    }

    ghost function Records(): map<string, S.RunRecord>
      reads this
    {
      RecordsOf(snapshots)
    }

    method LoadRunSnapshot(runID: string) returns (snapshot: Option<RunSnapshot>)
      ensures snapshot == if runID in snapshots then Some(snapshots[runID]) else None
    {
      return if runID in snapshots then Some(snapshots[runID]) else None;
    }

    method SaveRunSnapshot(snapshot: RunSnapshot)
      modifies this
      ensures snapshots == old(snapshots)[snapshot.record.runID := snapshot]
    {
      snapshots := snapshots[snapshot.record.runID := snapshot];
    }

    /** Saves a record under its run ID; the run keeps its events. */
    method SaveRecord(record: S.RunRecord)
      modifies this
      ensures Records() == old(Records())[record.runID := record]
      ensures forall id :: EventsOf(snapshots, id) == EventsOf(old(snapshots), id)
    {
      var loaded := LoadRunSnapshot(record.runID);
      var events := match loaded case Some(snapshot) => snapshot.events case None => [];
      SaveRunSnapshot(RunSnapshot(record, events));
    }

    method NextRunEventIndex(runID: string) returns (index: nat)
      ensures index == |EventsOf(snapshots, runID)| + 1
    {
      var loaded := LoadRunSnapshot(runID);
      match loaded
      case Some(snapshot) => return |snapshot.events| + 1;
      case None => return 1;
    }

    /** Appends an event; a run that is not stored yet starts with an empty record. */
    method AppendRunEvent(runID: string, event: E.RunEvent)
      modifies this
      ensures EventsOf(snapshots, runID) == EventsOf(old(snapshots), runID) + [event]
      ensures forall id | id != runID :: EventsOf(snapshots, id) == EventsOf(old(snapshots), id)
      ensures Records() == if runID in old(Records()) then old(Records()) else old(Records())[runID := NO_RECORD]
    {
      var snapshot := if runID in snapshots then snapshots[runID] else RunSnapshot(NO_RECORD, []);
      snapshot := snapshot.(events := snapshot.events + [event]);
      snapshots := snapshots[runID := snapshot];
    }

    /** Cancels a run whose worker has gone quiet, as one critical section. */
    method TryCancelStaleRun(runID: string, staleBefore: int, now: int) returns (canceled: Option<S.RunRecord>)
      modifies this
      ensures canceled.Some? <==> runID in old(snapshots) && IsStale(old(snapshots)[runID].record, staleBefore)
      ensures canceled == TryCancel(old(Records()), runID, staleBefore, now)
      ensures canceled.None? ==> snapshots == old(snapshots)
      ensures canceled.Some? ==> canceled.value == DetachedCancel(old(snapshots)[runID].record, now)
      ensures canceled.Some? ==>
        snapshots == old(snapshots)[runID := RunSnapshot(canceled.value, old(snapshots)[runID].events)]
    {
      if runID !in snapshots || !IsStale(snapshots[runID].record, staleBefore) {
        return None;
      }
      var snapshot := snapshots[runID];
      snapshot := snapshot.(record := DetachedCancel(snapshot.record, now));
      snapshots := snapshots[runID := snapshot];
      return Some(snapshot.record);
    }
  }

  class RunStateService {
    const runs: InMemoryRunStore
    const threads: S.InMemoryThreadStateStore

    constructor (runs: InMemoryRunStore, threads: S.InMemoryThreadStateStore)
      ensures this.runs == runs && this.threads == threads
    {
      this.runs := runs;
      this.threads := threads;
    }

    ghost function World(): S.World
      reads this, runs, threads
    {
      S.World(runs.Records(), threads.states)
    }

    method LoadThreadTaskState(threadID: string) returns (state: T.TaskState)
      ensures state == S.StoredTaskState(threads.states, threadID)
    {
      var thread, _ := threads.LoadThreadRuntimeState(threadID);
      var parsed := T.ParseTaskState(S.MetaValue(thread, S.TaskStateKey));
      return match parsed case Some(stored) => stored case None => T.ZERO;
    }

    method LoadTaskState(threadID: string) returns (state: T.TaskState)
      ensures state == S.NormalizedTaskState(threads.states, threadID)
    {
      var stored := LoadThreadTaskState(threadID);
      var normalized := T.NormalizeTaskState(stored);
      return match normalized case Ok(value) => value case Err(_) => T.ZERO;
    }

    method ShouldMutateThreadState(record: S.RunRecord) returns (may: bool)
      ensures may == S.CanMutate(threads.states, record)
    {
      var threadID, runID := TrimSpace(record.threadID), TrimSpace(record.runID);
      if threadID == "" || runID == "" {
        return true;
      }
      var state, found := threads.LoadThreadRuntimeState(threadID);
      if !found {
        return true;
      }
      return S.Active(state) == "" || S.Active(state) == runID;
    }

    method SetActiveRunOwnership(record: S.RunRecord)
      modifies threads
      ensures threads.states == S.SetOwner(old(threads.states), record)
    {
      var threadID, runID := TrimSpace(record.threadID), TrimSpace(record.runID);
      if threadID == "" || runID == "" {
        return;
      }
      threads.SetThreadMetadata(threadID, S.LastRunID, T.Text(runID));
      threads.SetThreadMetadata(threadID, S.ActiveRunID, T.Text(runID));
    }

    method ClearActiveRunOwnership(record: S.RunRecord)
      modifies threads
      ensures threads.states == S.ClearOwner(old(threads.states), record)
    {
      var threadID, runID := TrimSpace(record.threadID), TrimSpace(record.runID);
      if threadID == "" || runID == "" {
        return;
      }
      var state, found := threads.LoadThreadRuntimeState(threadID);
      if !found {
        return;
      }
      if S.Active(state) != "" && S.Active(state) != runID {
        return;
      }
      threads.ClearThreadMetadata(threadID, S.ActiveRunID);
    }

    method MarkError(record: S.RunRecord, error: string, now: int) returns (saved: S.RunRecord)
      modifies runs, threads
      ensures saved == S.ErrorRecord(old(World()), record, error, now)
      ensures World() == S.MarkError(old(World()), record, error, now)
    {
      hide TrimSpace, S.CanMutate, S.ClearOwner, S.SetMeta, S.MarkStatus, DescribeLifecycle, LifecycleValue,
           S.NormalizedTaskState;
      var taskState := LoadTaskState(record.threadID);
      var outcome := S.Describe(record, RunOutcome(false, "error"), error, taskState, false);
      saved := record.(status := outcome.runStatus, error := outcome.error, outcome := outcome, updatedAt := now);
      var mutate := ShouldMutateThreadState(saved);
      runs.SaveRecord(saved);
      if mutate {
        threads.SetThreadMetadata(saved.threadID, S.LifecycleKey, LifecycleValue(outcome.lifecycle));
        threads.MarkThreadStatus(saved.threadID, "error");
      }
      ClearActiveRunOwnership(saved);
    }

    method MarkCanceled(record: S.RunRecord, now: int) returns (saved: S.RunRecord)
      modifies runs, threads
      ensures saved == S.CanceledRecord(old(World()), record, now)
      ensures World() == S.MarkCanceled(old(World()), record, now)
    {
      hide TrimSpace, S.CanMutate, S.ClearOwner, S.SetMeta, S.MarkStatus, DescribeLifecycle, LifecycleValue,
           S.NormalizedTaskState;
      var taskState := LoadTaskState(record.threadID);
      var outcome := S.Describe(record, RunOutcome(true, "interrupted"), "", taskState, false);
      saved := record.(status := outcome.runStatus, error := outcome.error, outcome := outcome, updatedAt := now);
      var mutate := ShouldMutateThreadState(saved);
      runs.SaveRecord(saved);
      if mutate {
        threads.SetThreadMetadata(saved.threadID, S.LifecycleKey, LifecycleValue(outcome.lifecycle));
        threads.MarkThreadStatus(saved.threadID, "interrupted");
      }
      ClearActiveRunOwnership(saved);
    }

    method Begin(record: S.RunRecord, now: int) returns (saved: S.RunRecord)
      modifies runs, threads
      ensures saved == S.BegunRecord(old(World()), record, now)
      ensures World() == S.Begin(old(World()), record, now)
    {
      hide TrimSpace, S.SetOwner, S.SetMeta, S.MarkStatus, DescribeLifecycle, LifecycleValue, S.NormalizedTaskState;
      var taskState := LoadTaskState(record.threadID);
      saved := record;
      if saved.status == "" {
        saved := saved.(status := "running");
      }
      saved := saved.(outcome := S.Describe(saved, RunOutcome(false, "running"), "", taskState, false));
      saved := saved.(updatedAt := now);
      runs.SaveRecord(saved);
      threads.SetThreadMetadata(saved.threadID, S.LifecycleKey, LifecycleValue(saved.outcome.lifecycle));
      threads.MarkThreadStatus(saved.threadID, "busy");
      SetActiveRunOwnership(saved);
    }

    method ReconcileLive(record: S.RunRecord) returns (live: S.RunRecord)
      modifies runs, threads
      ensures live == S.ReconciledRecord(old(World()), record)
      ensures World() == S.ReconcileLive(old(World()), record)
    {
      hide TrimSpace, S.CanMutate, S.SetOwner, S.SetMeta, S.MarkStatus, LifecycleValue, S.DescribeLiveRunning,
           S.BindRecord, S.IsRunning;
      live := record;
      if live.status == "" {
        live := live.(status := "running");
      }
      if !S.IsRunning(live.outcome.runStatus) {
        live := live.(outcome := S.DescribeLiveRunning(live, threads.states));
      } else {
        live := live.(outcome := S.BindRecord(live, live.outcome));
      }
      var mutate := ShouldMutateThreadState(live);
      if mutate {
        if !live.outcome.lifecycle.IsZero() {
          threads.SetThreadMetadata(live.threadID, S.LifecycleKey, LifecycleValue(live.outcome.lifecycle));
        }
        threads.MarkThreadStatus(live.threadID, "busy");
        SetActiveRunOwnership(live);
      }
    }

    /** `PreflightService.Prepare` once the IDs are resolved. */
    method Prepare(threadID: string, assistantID: string, runID: string, now: int) returns (record: S.RunRecord)
      modifies runs, threads
      ensures record == S.PreparedRecord(threadID, assistantID, runID, now)
      ensures World() == S.Prepare(old(World()), threadID, assistantID, runID, now)
    {
      hide TrimSpace, Blank, S.SetMeta, S.MarkStatus, S.ClearMeta, DescribeLifecycle, LifecycleValue;
      threads.MarkThreadStatus(threadID, "busy");
      record := S.RunRecord(runID, threadID, assistantID, 1, 0, "", "running", "", NO_DESCRIPTOR, now, now);
      record := record.(outcome := S.Describe(record, RunOutcome(false, "running"), "", T.ZERO, false));
      runs.SaveRecord(record);
      threads.SetThreadMetadata(threadID, S.AssistantID, T.Text(assistantID));
      threads.SetThreadMetadata(threadID, S.GraphID,
        T.Text(if Blank(assistantID) then "lead_agent" else TrimSpace(assistantID)));
      threads.SetThreadMetadata(threadID, S.LastRunID, T.Text(runID));
      threads.SetThreadMetadata(threadID, S.ActiveRunID, T.Text(runID));
      threads.SetThreadMetadata(threadID, S.LifecycleKey, LifecycleValue(record.outcome.lifecycle));
      threads.ClearThreadMetadata(threadID, S.Interrupts);
    }

    /** `CompletionService.Apply`; without an owner the service has no runtime to write to. */
    method Apply(owner: bool, rawThreadID: string, f: S.Finish) returns (d: Descriptor)
      modifies threads
      ensures (threads.states, d) == S.Complete(old(threads.states), owner, rawThreadID, f)
    {
      hide TrimSpace, S.SetMeta, S.MarkStatus, S.ClearMeta, S.FinishedTaskState, S.CompletionDescriptor,
           LifecycleValue, T.Value, S.StoredTaskState;
      var threadID := TrimSpace(rawThreadID);
      if threadID == "" {
        return NO_DESCRIPTOR;
      }
      if owner && !Blank(f.title) {
        threads.SetThreadMetadata(threadID, S.Title, T.Text(TrimSpace(f.title)));
      }
      var taskState := T.ZERO;
      if owner {
        taskState := LoadThreadTaskState(threadID);
      }
      taskState := S.FinishedTaskState(taskState, f);
      if owner {
        if !taskState.IsZero() {
          threads.SetThreadMetadata(threadID, S.TaskStateKey, T.Value(taskState));
        } else {
          threads.ClearThreadMetadata(threadID, S.TaskStateKey);
        }
      }
      d := S.CompletionDescriptor(threadID, f, taskState);
      if owner {
        if f.interruptRequested {
          threads.SetThreadMetadata(threadID, S.Interrupts, T.List([f.interrupt]));
          threads.SetThreadMetadata(threadID, S.LifecycleKey, LifecycleValue(d.lifecycle));
          threads.MarkThreadStatus(threadID, "interrupted");
        } else {
          threads.ClearThreadMetadata(threadID, S.Interrupts);
          threads.SetThreadMetadata(threadID, S.LifecycleKey, LifecycleValue(d.lifecycle));
          threads.MarkThreadStatus(threadID, "idle");
        }
      }
    }

    /** `Coordinator.Finalize`, lifecycle hooks aside. */
    method Finalize(threadID: string, record: S.RunRecord, f: S.Finish, now: int) returns (saved: S.RunRecord)
      modifies runs, threads
      ensures World() == S.Finalize(old(World()), threadID, record, f, now)
      ensures saved == S.FinalRecord(record,
              S.Complete(old(threads.states), S.CanMutate(old(threads.states), record), threadID, f).1, now)
    {
      hide TrimSpace, S.CanMutate, S.Complete, S.ClearOwner, S.SetMeta, S.ClearMeta, LifecycleValue, S.BindRecord;
      var owner := ShouldMutateThreadState(record);
      var d := Apply(owner, threadID, f);
      var bound := S.BindRecord(record, S.BindRecord(record, d));
      saved := record.(status := bound.runStatus, error := bound.error, outcome := bound, updatedAt := now);
      var mutate := ShouldMutateThreadState(saved);
      runs.SaveRecord(saved);
      if mutate {
        if !saved.outcome.lifecycle.IsZero() {
          threads.SetThreadMetadata(saved.threadID, S.LifecycleKey, LifecycleValue(saved.outcome.lifecycle));
        } else {
          threads.ClearThreadMetadata(saved.threadID, S.LifecycleKey);
        }
      }
      ClearActiveRunOwnership(saved);
    }
  }
}
