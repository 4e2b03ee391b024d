/** What the end of a run leaves on a thread it owns: the status, the metadata it settles and
    everything it must not touch (pkg/harnessruntime/completion_service.go, coordinator.go,
    run_state_service.go). */
module RunCompletion {
  import opened GoStrings
  import opened RunState
  import opened RunOwnership
  import opened Wrappers
  import T = TaskState
  import O = Outcomes

  function MetaOf(threads: map<string, Thread>, id: string, key: MetaKey): Option<T.Any> {
    var t := LoadOrNew(threads, id);
    if key in t.metadata then Some(t.metadata[key]) else None
  }

  /** From `a` to `b` only thread `id` changed; there the status is `status` and the metadata
      under `key`, if any, is `value`. */
  ghost predicate Wrote(a: map<string, Thread>, b: map<string, Thread>, id: string, status: string,
                        key: Option<MetaKey>, value: Option<T.Any>)
  {
    && WellKeyed(b)
    && LoadOrNew(b, id).status == status
    && (forall k :: MetaOf(b, id, k) == if key == Some(k) then value else MetaOf(a, id, k))
    && OthersKept(a, b, id)
  }

  ghost predicate OthersKept(a: map<string, Thread>, b: map<string, Thread>, id: string) {
    forall other | other != id :: LoadOrNew(b, other) == LoadOrNew(a, other) && (other in b <==> other in a)
  }

  lemma SetMetaWrites(threads: map<string, Thread>, id: string, key: MetaKey, value: T.Any)
    requires WellKeyed(threads) && Canonical(id)
    ensures Wrote(threads, SetMeta(threads, id, key, value), id, LoadOrNew(threads, id).status, Some(key), Some(value))
    ensures id in SetMeta(threads, id, key, value)
  {
    hide TrimSpace;
  }

  lemma ClearMetaWrites(threads: map<string, Thread>, id: string, key: MetaKey)
    requires WellKeyed(threads) && Canonical(id)
    ensures Wrote(threads, ClearMeta(threads, id, key), id, LoadOrNew(threads, id).status, Some(key), None)
    ensures id in threads ==> id in ClearMeta(threads, id, key)
  {
    hide TrimSpace;
  }

  lemma MarkStatusWrites(threads: map<string, Thread>, id: string, status: string)
    requires WellKeyed(threads) && Canonical(id) && TrimSpace(status) == status
    ensures Wrote(threads, MarkStatus(threads, id, status), id, status, None, None)
    ensures id in MarkStatus(threads, id, status)
  {
    hide TrimSpace;
  }

  lemma ClearOwnerWrites(threads: map<string, Thread>, record: RunRecord)
    requires WellKeyed(threads) && Canonical(record.threadID) && Canonical(record.runID) && CanMutate(threads, record)
    ensures Wrote(threads, ClearOwner(threads, record), record.threadID, LoadOrNew(threads, record.threadID).status,
                  Some(ActiveRunID), None)
  {
    hide TrimSpace, ClearMeta, ActiveOf;
    ClearMetaWrites(threads, record.threadID, ActiveRunID);
  }

  lemma StatusesAreTrimmed()
    ensures TrimSpace("error") == "error" && TrimSpace("interrupted") == "interrupted" && TrimSpace("idle") == "idle"
  {
    hide TrimSpace, TrimLeft, TrimRight;
    TrimSpaceFixed("error");
    TrimSpaceFixed("interrupted");
    TrimSpaceFixed("idle");
  }

  /** A failed or cancelled run that may touch its thread leaves it marked, described by the
      run's lifecycle, without an owner, and otherwise as it was. */
  lemma CloseSettlesThread(w: World, record: RunRecord, status: string)
    requires WellKeyed(w.threads) && Canonical(record.threadID) && Canonical(record.runID)
    requires CanMutate(w.threads, record) && TrimSpace(status) == status
    ensures var id, before, after := record.threadID, w.threads, Close(w, record, status).threads;
      && LoadOrNew(after, id).status == status
      && MetaOf(after, id, LifecycleKey) == Some(O.LifecycleValue(record.outcome.lifecycle))
      && MetaOf(after, id, ActiveRunID) == None
      && (forall key | key != LifecycleKey && key != ActiveRunID :: MetaOf(after, id, key) == MetaOf(before, id, key))
      && OthersKept(before, after, id)
  {
    hide TrimSpace, MarkStatus, SetMeta, ClearOwner, CanMutate, O.LifecycleValue, MetaOf, LoadOrNew;
    var id := record.threadID;
    var value := O.LifecycleValue(record.outcome.lifecycle);
    var t1 := SetMeta(w.threads, id, LifecycleKey, value);
    SetMetaWrites(w.threads, id, LifecycleKey, value);
    SetMetaKeepsOwners(w.threads, id, LifecycleKey, value);
    var t2 := MarkStatus(t1, id, status);
    MarkStatusWrites(t1, id, status);
    MarkStatusKeepsOwners(t1, id, status);
    SameOwnersSameRights(w.threads, t2, record);
    ClearOwnerWrites(t2, record);
  }

  /** Both ends: the thread shows "error" or "interrupted" and the run's task state is kept. */
  lemma FailureSettlesThread(w: World, record: RunRecord, error: string, now: int)
    requires WellKeyed(w.threads) && Canonical(record.threadID) && Canonical(record.runID) &&
             CanMutate(w.threads, record)
    ensures var id, failed, canceled := record.threadID, MarkError(w, record, error, now), MarkCanceled(w, record, now);
      && LoadOrNew(failed.threads, id).status == "error" && failed.runs[record.runID].status == "error"
      && failed.runs[record.runID].error == error
      && LoadOrNew(canceled.threads, id).status == "interrupted" && canceled.runs[record.runID].status == "interrupted"
      && canceled.runs[record.runID].error == ""
      && StoredTaskState(failed.threads, id) == StoredTaskState(w.threads, id)
      && StoredTaskState(canceled.threads, id) == StoredTaskState(w.threads, id)
      && ActiveOf(failed.threads, id) == "" && ActiveOf(canceled.threads, id) == ""
  {
    hide TrimSpace, Describe, NormalizedTaskState, ClearOwner, MarkStatus, SetMeta, T.ParseTaskState,
         O.LifecycleValue;
    StatusesAreTrimmed();
    var e, c := ErrorRecord(w, record, error, now), CanceledRecord(w, record, now);
    SameRights(w.threads, record, e);
    SameRights(w.threads, record, c);
    CloseSettlesThread(w, e, "error");
    CloseSettlesThread(w, c, "interrupted");
    StoredByMeta(w.threads, MarkError(w, record, error, now).threads, record.threadID);
    StoredByMeta(w.threads, MarkCanceled(w, record, now).threads, record.threadID);
    NoOwner(MarkError(w, record, error, now).threads, record.threadID);
    NoOwner(MarkCanceled(w, record, now).threads, record.threadID);
  }

  lemma SameRights(threads: map<string, Thread>, a: RunRecord, b: RunRecord)
    requires a.runID == b.runID && a.threadID == b.threadID
    ensures CanMutate(threads, a) == CanMutate(threads, b)
  {
    hide TrimSpace;
  }

  lemma StoredByMeta(a: map<string, Thread>, b: map<string, Thread>, id: string)
    requires MetaOf(a, id, TaskStateKey) == MetaOf(b, id, TaskStateKey)
    ensures StoredTaskState(a, id) == StoredTaskState(b, id)
  {
    hide T.ParseTaskState;
  }

  lemma NoOwner(threads: map<string, Thread>, id: string)
    requires MetaOf(threads, id, ActiveRunID) == None
    ensures ActiveOf(threads, id) == ""
  {
    hide TrimSpace;
  }

  /** How the metadata stands after completion has written it. */
  ghost predicate Completed(a: map<string, Thread>, b: map<string, Thread>, id: string, f: Finish, d: O.Descriptor) {
    var taskState := FinishedTaskState(StoredTaskState(a, id), f);
    && WellKeyed(b) && OthersKept(a, b, id)
    && LoadOrNew(b, id).status == (if f.interruptRequested then "interrupted" else "idle")
    && MetaOf(b, id, Title) == (if Blank(f.title) then MetaOf(a, id, Title) else Some(T.Text(TrimSpace(f.title))))
    && MetaOf(b, id, TaskStateKey) == (if taskState.IsZero() then None else Some(T.Value(taskState)))
    && MetaOf(b, id, Interrupts) == (if f.interruptRequested then Some(T.List([f.interrupt])) else None)
    && MetaOf(b, id, LifecycleKey) == Some(O.LifecycleValue(d.lifecycle))
    && forall key | key !in {Title, TaskStateKey, Interrupts, LifecycleKey} :: MetaOf(b, id, key) == MetaOf(a, id, key)
  }

  lemma FourWrites(t0: map<string, Thread>, t1: map<string, Thread>, t2: map<string, Thread>, t3: map<string, Thread>,
                   t4: map<string, Thread>, t5: map<string, Thread>, id: string, status: string,
                   title: Option<MetaKey>, v1: Option<T.Any>, v2: Option<T.Any>, v3: Option<T.Any>, v4: Option<T.Any>)
    requires exists s :: Wrote(t0, t1, id, s, title, v1)
    requires exists s :: Wrote(t1, t2, id, s, Some(TaskStateKey), v2)
    requires exists s :: Wrote(t2, t3, id, s, Some(Interrupts), v3)
    requires exists s :: Wrote(t3, t4, id, s, Some(LifecycleKey), v4)
    requires Wrote(t4, t5, id, status, None, None)
    requires title == None || title == Some(Title)
    ensures WellKeyed(t5) && OthersKept(t0, t5, id) && LoadOrNew(t5, id).status == status
    ensures MetaOf(t5, id, Title) == if title == None then MetaOf(t0, id, Title) else v1
    ensures MetaOf(t5, id, TaskStateKey) == v2 && MetaOf(t5, id, Interrupts) == v3 && MetaOf(t5, id, LifecycleKey) == v4
    ensures forall key | key !in {Title, TaskStateKey, Interrupts, LifecycleKey} ::
            MetaOf(t5, id, key) == MetaOf(t0, id, key)
  {
    hide MetaOf, LoadOrNew, WellKeyed;
  }

  lemma NothingWritten(threads: map<string, Thread>, id: string)
    requires WellKeyed(threads)
    ensures Wrote(threads, threads, id, LoadOrNew(threads, id).status, None, None)
  {
  }

  lemma WroteKeyed(a: map<string, Thread>, b: map<string, Thread>, id: string, key: Option<MetaKey>,
                   value: Option<T.Any>)
    requires exists s :: Wrote(a, b, id, s, key, value)
    ensures WellKeyed(b)
    ensures key != Some(TaskStateKey) ==> StoredTaskState(b, id) == StoredTaskState(a, id)
  {
    hide MetaOf, LoadOrNew, StoredTaskState;
    if key != Some(TaskStateKey) {
      StoredByMeta(a, b, id);
    }
  }

  lemma CompleteWrites(threads: map<string, Thread>, id: string, f: Finish)
    requires WellKeyed(threads) && Canonical(id)
    ensures var (after, d) := Complete(threads, true, id, f);
            Completed(threads, after, id, f, d) &&
            d == CompletionDescriptor(id, f, FinishedTaskState(StoredTaskState(threads, id), f))
  {
    hide TrimSpace, MarkStatus, SetMeta, ClearMeta, CompletionDescriptor, FinishedTaskState, O.LifecycleValue,
         T.Value, MetaOf, LoadOrNew, StoredTaskState, Wrote, OthersKept, T.TaskState.IsZero;
    StatusesAreTrimmed();
    var title := if Blank(f.title) then None else Some(Title);
    var t1 := if !Blank(f.title) then SetMeta(threads, id, Title, T.Text(TrimSpace(f.title))) else threads;
    SetMetaWrites(threads, id, Title, T.Text(TrimSpace(f.title)));
    NothingWritten(threads, id);
    var v1 := if title == None then None else Some(T.Text(TrimSpace(f.title)));
    WroteKeyed(threads, t1, id, title, v1);
    var taskState := FinishedTaskState(StoredTaskState(t1, id), f);
    var d := CompletionDescriptor(id, f, taskState);
    var t2 := if taskState.IsZero() then ClearMeta(t1, id, TaskStateKey)
      else SetMeta(t1, id, TaskStateKey, T.Value(taskState));
    ClearMetaWrites(t1, id, TaskStateKey);
    SetMetaWrites(t1, id, TaskStateKey, T.Value(taskState));
    var t3 := if f.interruptRequested then SetMeta(t2, id, Interrupts, T.List([f.interrupt]))
      else ClearMeta(t2, id, Interrupts);
    WroteKeyed(t1, t2, id, Some(TaskStateKey), if taskState.IsZero() then None else Some(T.Value(taskState)));
    SetMetaWrites(t2, id, Interrupts, T.List([f.interrupt]));
    ClearMetaWrites(t2, id, Interrupts);
    var t4 := SetMeta(t3, id, LifecycleKey, O.LifecycleValue(d.lifecycle));
    WroteKeyed(t2, t3, id, Some(Interrupts), if f.interruptRequested then Some(T.List([f.interrupt])) else None);
    SetMetaWrites(t3, id, LifecycleKey, O.LifecycleValue(d.lifecycle));
    WroteKeyed(t3, t4, id, Some(LifecycleKey), Some(O.LifecycleValue(d.lifecycle)));
    var status := if f.interruptRequested then "interrupted" else "idle";
    MarkStatusWrites(t4, id, status);
    FourWrites(threads, t1, t2, t3, t4, MarkStatus(t4, id, status), id, status, title, v1,
               if taskState.IsZero() then None else Some(T.Value(taskState)),
               if f.interruptRequested then Some(T.List([f.interrupt])) else None,
               Some(O.LifecycleValue(d.lifecycle)));
  }

  /** What a later load makes of a stored task state: its normal form, or nothing when it has
      none. */
  function Reloaded(taskState: T.TaskState): T.TaskState {
    match T.Normalized(taskState) case Ok(normal) => normal case Err(_) => T.ZERO
  }

  /** The end of a run on a thread it may touch: the thread is idle, or interrupted exactly when
      an interrupt was asked for and is then stored; the next run will load the normal form of the
      task state this run ended with, which is that state itself exactly when it is in normal
      form; the owner is gone and every other thread is as it was. */
  lemma FinishSettlesThread(w: World, record: RunRecord, f: Finish, now: int)
    requires WellKeyed(w.threads) && Canonical(record.threadID) && Canonical(record.runID) &&
             CanMutate(w.threads, record)
    ensures var id, before := record.threadID, w.threads;
      var after := Finalize(w, id, record, f, now).threads;
      var taskState := FinishedTaskState(StoredTaskState(before, id), f);
      && LoadOrNew(after, id).status == (if f.interruptRequested then "interrupted" else "idle")
      && ActiveOf(after, id) == ""
      && (MetaOf(after, id, Interrupts) == if f.interruptRequested then Some(T.List([f.interrupt])) else None)
      && StoredTaskState(after, id) == Reloaded(taskState)
      && (StoredTaskState(after, id) == taskState <==> T.NormalForm(taskState))
      && (forall key | key !in {Title, TaskStateKey, Interrupts, LifecycleKey, ActiveRunID} ::
            MetaOf(after, id, key) == MetaOf(before, id, key))
      && OthersKept(before, after, id)
  {
    hide TrimSpace, Complete, FinalizeState, CanMutate, FinishedTaskState, StoredTaskState, O.LifecycleValue, T.Value,
         MetaOf, LoadOrNew, T.NormalForm, ActiveOf, Completed, Reloaded;
    var id := record.threadID;
    var (threads, d) := Complete(w.threads, true, id, f);
    CompleteWrites(w.threads, id, f);
    CompleteKeepsOwners(w.threads, true, id, f);
    var final := FinalRecord(record, d, now);
    SameOwnersSameRights(w.threads, threads, final);
    SameRights(w.threads, record, final);
    SettleFinal(w.(threads := threads), final);
    var after := Finalize(w, id, record, f, now).threads;
    assert after == FinalizeState(w.(threads := threads), final).threads;
    CompletedThenSettled(w.threads, threads, after, id, f, d);
  }

  /** What `RunStateService.Finalize` adds: the record's lifecycle, and the owner removed. */
  ghost predicate Settled(a: map<string, Thread>, b: map<string, Thread>, id: string) {
    && LoadOrNew(b, id).status == LoadOrNew(a, id).status
    && MetaOf(b, id, ActiveRunID) == None
    && (forall key | key != LifecycleKey && key != ActiveRunID :: MetaOf(b, id, key) == MetaOf(a, id, key))
    && OthersKept(a, b, id)
  }

  lemma SettleFinal(w: World, record: RunRecord)
    requires WellKeyed(w.threads) && Canonical(record.threadID) && Canonical(record.runID) &&
             CanMutate(w.threads, record)
    ensures Settled(w.threads, FinalizeState(w, record).threads, record.threadID)
  {
    hide TrimSpace, SetMeta, ClearMeta, ClearOwner, CanMutate, O.LifecycleValue, MetaOf, LoadOrNew;
    var id := record.threadID;
    var value := O.LifecycleValue(record.outcome.lifecycle);
    var t1 := if record.outcome.lifecycle.IsZero() then ClearMeta(w.threads, id, LifecycleKey)
      else SetMeta(w.threads, id, LifecycleKey, value);
    SetMetaWrites(w.threads, id, LifecycleKey, value);
    ClearMetaWrites(w.threads, id, LifecycleKey);
    SetMetaKeepsOwners(w.threads, id, LifecycleKey, value);
    ClearMetaKeepsOwners(w.threads, id, LifecycleKey);
    SameOwnersSameRights(w.threads, t1, record);
    ClearOwnerWrites(t1, record);
  }

  lemma CompletedThenSettled(a: map<string, Thread>, b: map<string, Thread>, c: map<string, Thread>, id: string,
                             f: Finish, d: O.Descriptor)
    requires Completed(a, b, id, f, d) && Settled(b, c, id)
    ensures var taskState := FinishedTaskState(StoredTaskState(a, id), f);
      && LoadOrNew(c, id).status == (if f.interruptRequested then "interrupted" else "idle")
      && ActiveOf(c, id) == ""
      && (MetaOf(c, id, Interrupts) == if f.interruptRequested then Some(T.List([f.interrupt])) else None)
      && StoredTaskState(c, id) == Reloaded(taskState)
      && (StoredTaskState(c, id) == taskState <==> T.NormalForm(taskState))
      && (forall key | key !in {Title, TaskStateKey, Interrupts, LifecycleKey, ActiveRunID} ::
          MetaOf(c, id, key) == MetaOf(a, id, key))
      && OthersKept(a, c, id)
  {
    hide TrimSpace, FinishedTaskState, StoredTaskState, O.LifecycleValue, T.Value, MetaOf, LoadOrNew, T.NormalForm,
         ActiveOf, Reloaded;
    NoOwner(c, id);
    var taskState := FinishedTaskState(StoredTaskState(a, id), f);
    LoadsWhatWasStored(c, id, taskState);
  }

  lemma LoadsWhatWasStored(threads: map<string, Thread>, id: string, taskState: T.TaskState)
    requires MetaOf(threads, id, TaskStateKey) == if taskState.IsZero() then None else Some(T.Value(taskState))
    ensures StoredTaskState(threads, id) == Reloaded(taskState)
    ensures StoredTaskState(threads, id) == taskState <==> T.NormalForm(taskState)
  {
    hide T.ParseTaskState, T.Value, T.NormalForm, T.Normalized;
    T.NormalFormIsFixed(taskState);
    T.NormalFormIsFixed(T.ZERO);
    if taskState.IsZero() {
      assert taskState == T.ZERO;
      T.StoredNull();
      ZeroIsNormal();
    } else {
      T.StoredStateParsesToNormalForm(taskState);
    }
  }

  lemma ZeroIsNormal()
    ensures T.NormalForm(T.ZERO)
  {
  }

  /** The record a finish saves reports what the completion decided: its status, the reason when
      it was blocked, and then the pending tasks and missing artifacts that blocked it. */
  lemma FinishReportsTheDecision(w: World, threadID: string, record: RunRecord, f: Finish, now: int)
    requires !Blank(threadID)
    ensures var runs := Finalize(w, threadID, record, f, now).runs;
      && runs.Keys == w.runs.Keys + {record.runID}
      && (forall id | id in w.runs && id != record.runID :: runs[id] == w.runs[id])
      && var saved := runs[record.runID];
         var blocked := !f.interruptRequested && !f.allowed;
         && saved.status == f.outcome.runStatus && saved.updatedAt == now
         && saved.error == (if blocked then f.reason else "")
         && saved.outcome.attempt == record.attempt && saved.outcome.interrupted == f.outcome.interrupted
         && (blocked ==>
               saved.outcome.pendingTasks == f.pendingTasks && saved.outcome.expectedArtifacts == f.expectedArtifacts)
         && (f.interruptRequested ==> saved.outcome.lifecycle.status == "paused")
  {
    hide TrimSpace, SetMeta, ClearMeta, MarkStatus, CanMutate, ClearOwner, FinishedTaskState, StoredTaskState,
         O.PendingTexts, T.Missing, T.Value, O.LifecycleValue;
  }

  /** The end of a run inside a worker, which completes the run without asking who owns the
      thread. */
  function WorkerFinish(w: World, record: RunRecord, f: Finish, now: int): World {
    var (threads, d) := Complete(w.threads, true, record.threadID, f);
    var bound := BindRecord(record, d);
    FinalizeState(w.(threads := threads),
      record.(status := bound.runStatus, error := bound.error, outcome := bound, updatedAt := now))
  }

  /** For the run that may touch its thread the two ends are the same. */
  lemma WorkerFinishOfOwner(w: World, record: RunRecord, f: Finish, now: int)
    requires CanMutate(w.threads, record)
    ensures WorkerFinish(w, record, f, now) == Finalize(w, record.threadID, record, f, now)
  {
    hide CanMutate, FinalizeState, Complete;
  }

  /** The thread already shows everything the completion would write: the title, if one is to be
      written, the status, the interrupt, the task state and the lifecycle. */
  predicate AlreadyShows(threads: map<string, Thread>, id: string, f: Finish) {
    var taskState := FinishedTaskState(StoredTaskState(threads, id), f);
    && LoadOrNew(threads, id).status == (if f.interruptRequested then "interrupted" else "idle")
    && (!Blank(f.title) ==> MetaOf(threads, id, Title) == Some(T.Text(TrimSpace(f.title))))
    && MetaOf(threads, id, TaskStateKey) == (if taskState.IsZero() then None else Some(T.Value(taskState)))
    && MetaOf(threads, id, Interrupts) == (if f.interruptRequested then Some(T.List([f.interrupt])) else None)
    && MetaOf(threads, id, LifecycleKey) == Some(O.LifecycleValue(CompletionDescriptor(id, f, taskState).lifecycle))
  }

  lemma SameMetadata(a: Thread, b: Thread)
    requires forall key :: (key in a.metadata <==> key in b.metadata)
    requires forall key | key in a.metadata :: a.metadata[key] == b.metadata[key]
    ensures a.metadata == b.metadata
  {
  }

  lemma SameThread(a: map<string, Thread>, b: map<string, Thread>, id: string)
    requires WellKeyed(a) && WellKeyed(b) && id in a && id in b
    requires LoadOrNew(a, id).status == LoadOrNew(b, id).status
    requires forall key :: MetaOf(a, id, key) == MetaOf(b, id, key)
    ensures a[id] == b[id]
  {
    hide Canonical;
    forall key ensures key in a[id].metadata <==> key in b[id].metadata {
      assert MetaOf(a, id, key) == MetaOf(b, id, key);
    }
    forall key | key in a[id].metadata ensures a[id].metadata[key] == b[id].metadata[key] {
      assert MetaOf(a, id, key) == MetaOf(b, id, key);
    }
    SameMetadata(a[id], b[id]);
  }

  lemma SameThreads(a: map<string, Thread>, b: map<string, Thread>, id: string)
    requires id in a && id in b && a[id] == b[id] && OthersKept(a, b, id)
    ensures a == b
  {
    forall other ensures other in a <==> other in b {
      assert other != id ==> (other in b <==> other in a);
    }
    forall other | other in a ensures a[other] == b[other] {
      assert other != id ==> LoadOrNew(b, other) == LoadOrNew(a, other);
    }
  }

  /** Completion changes nothing exactly when the thread already shows all of it. */
  lemma CompletedUnchanged(a: map<string, Thread>, b: map<string, Thread>, id: string, f: Finish, d: O.Descriptor)
    requires WellKeyed(a) && id in a && id in b && Completed(a, b, id, f, d)
    requires d == CompletionDescriptor(id, f, FinishedTaskState(StoredTaskState(a, id), f))
    ensures a == b <==> AlreadyShows(a, id, f)
  {
    hide TrimSpace, Blank, FinishedTaskState, StoredTaskState, O.LifecycleValue, T.Value, MetaOf, LoadOrNew,
         WellKeyed, CompletionDescriptor, OthersKept;
    if AlreadyShows(a, id, f) {
      forall key ensures MetaOf(a, id, key) == MetaOf(b, id, key) {
      }
      SameThread(a, b, id);
      SameThreads(a, b, id);
    }
  }

  lemma CompleteKeepsThread(threads: map<string, Thread>, id: string, f: Finish)
    requires WellKeyed(threads) && Canonical(id)
    ensures id in Complete(threads, true, id, f).0
  {
    hide TrimSpace, SetMeta, ClearMeta, CompletionDescriptor, FinishedTaskState, O.LifecycleValue, T.Value,
         StoredTaskState;
    StatusesAreTrimmed();
  }

  lemma OwnedIsStored(threads: map<string, Thread>, record: RunRecord)
    requires Canonical(record.threadID) && !CanMutate(threads, record)
    ensures record.threadID in threads
  {
    hide TrimSpace, Active;
  }

  /** So there a run that does not own its thread writes to it: status, interrupt, task state and
      lifecycle are its own afterwards, and only the owner stays.  It leaves the thread alone, as
      `Finalize` always does, exactly when the thread already shows all of that. */
  lemma WorkerFinishIgnoresOwner(w: World, record: RunRecord, f: Finish, now: int)
    requires WellKeyed(w.threads) && Canonical(record.threadID) && Canonical(record.runID) &&
             !CanMutate(w.threads, record)
    ensures var id, after := record.threadID, WorkerFinish(w, record, f, now).threads;
      var taskState := FinishedTaskState(StoredTaskState(w.threads, id), f);
      && LoadOrNew(after, id).status == (if f.interruptRequested then "interrupted" else "idle")
      && (MetaOf(after, id, Interrupts) == if f.interruptRequested then Some(T.List([f.interrupt])) else None)
      && StoredTaskState(after, id) == Reloaded(taskState)
      && MetaOf(after, id, LifecycleKey) == Some(O.LifecycleValue(CompletionDescriptor(id, f, taskState).lifecycle))
      && ActiveOf(after, id) == ActiveOf(w.threads, id)
      && Finalize(w, id, record, f, now).threads == w.threads
      && (after == w.threads <==> AlreadyShows(w.threads, id, f))
  {
    hide TrimSpace, Complete, FinalizeState, CanMutate, FinishedTaskState, StoredTaskState, O.LifecycleValue, T.Value,
         MetaOf, LoadOrNew, ActiveOf, CompletionDescriptor, BindRecord, Finalize, AlreadyShows, Reloaded;
    var id := record.threadID;
    var (threads, d) := Complete(w.threads, true, id, f);
    CompleteWrites(w.threads, id, f);
    CompleteKeepsOwners(w.threads, true, id, f);
    CompleteKeepsThread(w.threads, id, f);
    OwnedIsStored(w.threads, record);
    CompletedUnchanged(w.threads, threads, id, f, d);
    LoadsWhatWasStored(threads, id, FinishedTaskState(StoredTaskState(w.threads, id), f));
    var bound := BindRecord(record, d);
    var final := record.(status := bound.runStatus, error := bound.error, outcome := bound, updatedAt := now);
    SameOwnersSameRights(w.threads, threads, final);
    SameRights(w.threads, record, final);
    FinalizeStateFrees(w.(threads := threads), final);
    FinalizeFrees(w, id, record, f, now);
  }

  /** The worker's end leaves every thread as `Finalize` does exactly when the run may touch its
      thread or the thread already shows what it would write. */
  lemma WorkerRespectsOwnerExactly(w: World, record: RunRecord, f: Finish, now: int)
    requires WellKeyed(w.threads) && Canonical(record.threadID) && Canonical(record.runID)
    ensures WorkerFinish(w, record, f, now).threads == Finalize(w, record.threadID, record, f, now).threads <==>
            CanMutate(w.threads, record) || AlreadyShows(w.threads, record.threadID, f)
  {
    hide WorkerFinish, Finalize, CanMutate, AlreadyShows, Canonical, FinishedTaskState, CompletionDescriptor;
    if CanMutate(w.threads, record) {
      WorkerFinishOfOwner(w, record, f, now);
    } else {
      WorkerFinishIgnoresOwner(w, record, f, now);
    }
  }

  /** It is reached: a worker begins run `a`, run `b` is then prepared on the same thread, and
      however `a` ends, `b`'s thread stops being busy. */
  lemma WorkerOverwritesLaterRun(threadID: string, a: string, b: string, f: Finish, now: int)
    requires Canonical(threadID) && Canonical(a) && Canonical(b) && a != b
    ensures var w1 := Prepare(EMPTY, threadID, "", a, 1);
      a in w1.runs &&
      var steps := [PrepareStep(threadID, "", a, 1), BeginStep(w1.runs[a], 2), PrepareStep(threadID, "", b, 3)];
      var w := Run(steps);
      && Orderly(steps) && a in w.runs && b in w.runs && ActiveOf(w.threads, threadID) == b
      && LoadOrNew(w.threads, threadID).status == "busy"
      && var after := WorkerFinish(w, w.runs[a], f, now);
         && LoadOrNew(after.threads, threadID).status != "busy" && ActiveOf(after.threads, threadID) == b
         && Finalize(w, threadID, w.runs[a], f, now).threads == w.threads
  {
    hide Inv, Canonical, IsRunning, TrimSpace, SetMeta, ClearMeta, MarkStatus, Describe, Blank, Prepare, Begin,
         BegunRecord, NormalizedTaskState, WorkerFinish, Finalize, CanMutate, ActiveOf, MetaOf, FinishedTaskState,
         StoredTaskState, CompletionDescriptor, AlreadyShows, Reloaded, O.LifecycleValue, LoadOrNew, OthersKept;
    EmptyInv();
    StatusWords();
    var w1 := Prepare(EMPTY, threadID, "", a, 1);
    PreparedWorld(EMPTY, threadID, a, 1);
    var s1, s3 := PrepareStep(threadID, "", a, 1), PrepareStep(threadID, "", b, 3);
    var s2 := BeginStep(w1.runs[a], 2);
    PrepareKeepsInv(EMPTY, threadID, "", a, 1);
    var w2 := Begin(w1, w1.runs[a], 2);
    BeginKeepsInv(w1, w1.runs[a], 2);
    InvFacts(w1);
    BeginTakes(w1, w1.runs[a], 2);
    BeginStatus(w1, w1.runs[a], 2);
    var w := Prepare(w2, threadID, "", b, 3);
    InvFacts(w2);
    PreparedWorld(w2, threadID, b, 3);
    PrepareKeepsInv(w2, threadID, "", b, 3);
    InvFacts(w);
    RunOfThree(s1, s2, s3);
    OtherOwner(w.threads, w.runs[a], b);
    WorkerFinishIgnoresOwner(w, w.runs[a], f, now);
  }

  lemma RunOfThree(a: Step, b: Step, c: Step)
    ensures Run([a, b, c]) == Next(Next(Next(EMPTY, a), b), c)
    ensures Orderly([a, b, c]) <==>
            && Enabled(EMPTY, a) && TakesForLiveRun(EMPTY, a)
            && var w1 := Next(EMPTY, a);
               && Enabled(w1, b) && TakesForLiveRun(w1, b)
               && var w2 := Next(w1, b); Enabled(w2, c) && TakesForLiveRun(w2, c)
  {
    hide Next, Enabled, TakesForLiveRun;
    var steps := [a, b, c];
    assert steps[..3] == steps && steps[..2] == [a, b] && steps[..1] == [a] && steps[..0] == [];
    assert [a, b][..1] == [a] && [a][..0] == [];
    assert Run([a]) == Next(EMPTY, a);
    assert Run([a, b]) == Next(Run([a]), b);
    if Orderly(steps) {
      assert Enabled(Run(steps[..0]), steps[0]) && Enabled(Run(steps[..1]), steps[1]) &&
             Enabled(Run(steps[..2]), steps[2]);
    }
  }

  lemma OtherOwner(threads: map<string, Thread>, record: RunRecord, other: string)
    requires Canonical(record.threadID) && Canonical(record.runID) && Canonical(other) && record.runID != other
    requires ActiveOf(threads, record.threadID) == other
    ensures !CanMutate(threads, record)
  {
    hide TrimSpace, ActiveOf;
  }

  /** A prepared thread is busy and owned by the prepared run, which joins the saved ones. */
  lemma PreparedWorld(w: World, threadID: string, runID: string, now: int)
    requires WellKeyed(w.threads) && Canonical(threadID) && Canonical(runID)
    ensures var after := Prepare(w, threadID, "", runID, now);
      && after.runs == w.runs[runID := PreparedRecord(threadID, "", runID, now)]
      && after.runs[runID].threadID == threadID && after.runs[runID].runID == runID
      && after.runs[runID].status == "running" && after.runs[runID].attempt == 1
      && ActiveOf(after.threads, threadID) == runID && LoadOrNew(after.threads, threadID).status == "busy"
  {
    hide TrimSpace, SetMeta, ClearMeta, MarkStatus, Describe, Blank, ActiveOf, LoadOrNew, MetaOf, OthersKept;
    PrepareTakes(w, threadID, "", runID, now);
    PrepareTakesThread(w, threadID, "", runID, now);
  }

  // ---- what taking a thread leaves on it ----------------------------------------------------

  /** From `a` to `b` the run took the thread: it is busy, owned by the run, shows the lifecycle,
      and keeps everything not in `written`. */
  ghost predicate TookThread(a: map<string, Thread>, b: map<string, Thread>, id: string, runID: string,
                             lifecycle: O.TaskLifecycle, written: set<MetaKey>)
  {
    && LoadOrNew(b, id).status == "busy"
    && MetaOf(b, id, ActiveRunID) == Some(T.Text(runID)) && MetaOf(b, id, LastRunID) == Some(T.Text(runID))
    && MetaOf(b, id, LifecycleKey) == Some(O.LifecycleValue(lifecycle))
    && (forall key | key !in written + {ActiveRunID, LastRunID, LifecycleKey} ::
        MetaOf(b, id, key) == MetaOf(a, id, key))
    && OthersKept(a, b, id)
  }

  lemma CanonicalIsTrimmed(id: string)
    requires Canonical(id)
    ensures TrimSpace(id) == id
  {
  }

  lemma BusyIsTrimmed()
    ensures TrimSpace("busy") == "busy"
  {
    hide TrimSpace, TrimLeft, TrimRight;
    TrimSpaceFixed("busy");
  }

  /** Beginning a run takes its thread and saves it as running; an earlier owner just loses it. */
  lemma BeginTakesThread(w: World, record: RunRecord, now: int)
    requires WellKeyed(w.threads) && Canonical(record.threadID) && Canonical(record.runID)
    ensures var r := BegunRecord(w, record, now);
      && TookThread(w.threads, Begin(w, record, now).threads, record.threadID, record.runID, r.outcome.lifecycle, {})
      && Begin(w, record, now).runs[record.runID] == r
      && r.outcome.runStatus == "running" && r.outcome.attempt == record.attempt && r.updatedAt == now
  {
    hide TrimSpace, MarkStatus, SetMeta, NormalizedTaskState, O.LifecycleValue, O.DescribeLifecycle, MetaOf,
         LoadOrNew, WellKeyed, Canonical;
    CanonicalIsNotBlank(record.threadID);
    CanonicalIsNotBlank(record.runID);
    assert TrimSpace(record.threadID) == record.threadID && TrimSpace(record.runID) == record.runID by {
      CanonicalIsTrimmed(record.threadID);
      CanonicalIsTrimmed(record.runID);
    }
    BusyIsTrimmed();
    var r, id := BegunRecord(w, record, now), record.threadID;
    var value, runID := O.LifecycleValue(r.outcome.lifecycle), T.Text(record.runID);
    var t1 := SetMeta(w.threads, id, LifecycleKey, value);
    SetMetaWrites(w.threads, id, LifecycleKey, value);
    var t2 := MarkStatus(t1, id, "busy");
    MarkStatusWrites(t1, id, "busy");
    var t3 := SetMeta(t2, id, LastRunID, runID);
    SetMetaWrites(t2, id, LastRunID, runID);
    SetMetaWrites(t3, id, ActiveRunID, runID);
  }

  /** Taking a thread for a run that is already live makes it busy and that run's, and shows its
      lifecycle if it has one; a thread owned by another run is left alone. */
  lemma ReconcileTakesThread(w: World, record: RunRecord)
    requires WellKeyed(w.threads) && Canonical(record.threadID) && Canonical(record.runID)
    ensures var id, before, after := record.threadID, w.threads, ReconcileLive(w, record).threads;
      var lifecycle := ReconciledRecord(w, record).outcome.lifecycle;
      if CanMutate(w.threads, record) then
        && LoadOrNew(after, id).status == "busy"
        && MetaOf(after, id, ActiveRunID) == Some(T.Text(record.runID))
        && MetaOf(after, id, LastRunID) == Some(T.Text(record.runID))
        && MetaOf(after, id, LifecycleKey) ==
             (if lifecycle.IsZero() then MetaOf(before, id, LifecycleKey) else Some(O.LifecycleValue(lifecycle)))
        && (forall key | key !in {ActiveRunID, LastRunID, LifecycleKey} ::
              MetaOf(after, id, key) == MetaOf(before, id, key))
        && OthersKept(before, after, id)
      else after == before
  {
    hide TrimSpace, MarkStatus, SetMeta, NormalizedTaskState, O.LifecycleValue, O.DescribeLifecycle, MetaOf,
         LoadOrNew, WellKeyed, Canonical, ActiveOf, DescribeLiveRunning, BindRecord, IsRunning, CanMutate;
    CanonicalIsNotBlank(record.threadID);
    CanonicalIsNotBlank(record.runID);
    CanonicalIsTrimmed(record.threadID);
    CanonicalIsTrimmed(record.runID);
    BusyIsTrimmed();
    var r, id := ReconciledRecord(w, record), record.threadID;
    SameRights(w.threads, record, r);
    var value, runID := O.LifecycleValue(r.outcome.lifecycle), T.Text(record.runID);
    var t1 := if r.outcome.lifecycle.IsZero() then w.threads else SetMeta(w.threads, id, LifecycleKey, value);
    SetMetaWrites(w.threads, id, LifecycleKey, value);
    var t2 := MarkStatus(t1, id, "busy");
    MarkStatusWrites(t1, id, "busy");
    var t3 := SetMeta(t2, id, LastRunID, runID);
    SetMetaWrites(t2, id, LastRunID, runID);
    SetMetaWrites(t3, id, ActiveRunID, runID);
  }

  /** Preparing a run takes its thread for a new record at attempt 1, names the assistant and its
      graph, and drops any interrupt left over. */
  lemma PrepareTakesThread(w: World, threadID: string, assistantID: string, runID: string, now: int)
    requires WellKeyed(w.threads) && Canonical(threadID) && Canonical(runID)
    ensures var after := Prepare(w, threadID, assistantID, runID, now);
      var r := PreparedRecord(threadID, assistantID, runID, now);
      && TookThread(w.threads, after.threads, threadID, runID, r.outcome.lifecycle, {AssistantID, GraphID, Interrupts})
      && MetaOf(after.threads, threadID, AssistantID) == Some(T.Text(assistantID))
      && MetaOf(after.threads, threadID, GraphID) ==
           Some(T.Text(if Blank(assistantID) then "lead_agent" else TrimSpace(assistantID)))
      && MetaOf(after.threads, threadID, Interrupts) == None
      && after.runs[runID] == r && r.attempt == 1 && r.status == "running" && r.outcome.runStatus == "running"
      && r.threadID == threadID && r.createdAt == r.updatedAt == now
  {
    hide TrimSpace, Blank, MarkStatus, SetMeta, ClearMeta, O.LifecycleValue, O.DescribeLifecycle, MetaOf, LoadOrNew,
         Wrote, OthersKept;
    BusyIsTrimmed();
    var r := PreparedRecord(threadID, assistantID, runID, now);
    var value, run := O.LifecycleValue(r.outcome.lifecycle), T.Text(runID);
    var graph := T.Text(if Blank(assistantID) then "lead_agent" else TrimSpace(assistantID));
    var t1 := MarkStatus(w.threads, threadID, "busy");
    MarkStatusWrites(w.threads, threadID, "busy");
    StillKeyed(w.threads, t1, threadID, "busy", None, None);
    var t2 := SetMeta(t1, threadID, AssistantID, T.Text(assistantID));
    SetMetaWrites(t1, threadID, AssistantID, T.Text(assistantID));
    StillKeyed(t1, t2, threadID, "busy", Some(AssistantID), Some(T.Text(assistantID)));
    var t3 := SetMeta(t2, threadID, GraphID, graph);
    SetMetaWrites(t2, threadID, GraphID, graph);
    StillKeyed(t2, t3, threadID, "busy", Some(GraphID), Some(graph));
    var t4 := SetMeta(t3, threadID, LastRunID, run);
    SetMetaWrites(t3, threadID, LastRunID, run);
    StillKeyed(t3, t4, threadID, "busy", Some(LastRunID), Some(run));
    var t5 := SetMeta(t4, threadID, ActiveRunID, run);
    SetMetaWrites(t4, threadID, ActiveRunID, run);
    StillKeyed(t4, t5, threadID, "busy", Some(ActiveRunID), Some(run));
    var t6 := SetMeta(t5, threadID, LifecycleKey, value);
    SetMetaWrites(t5, threadID, LifecycleKey, value);
    StillKeyed(t5, t6, threadID, "busy", Some(LifecycleKey), Some(value));
    ClearMetaWrites(t6, threadID, Interrupts);
    ThreeWrites(w.threads, t1, t2, t3, threadID, T.Text(assistantID), graph);
    FourMoreWrites(w.threads, t3, t4, t5, t6, ClearMeta(t6, threadID, Interrupts), threadID, run, value);
  }

  lemma StillKeyed(a: map<string, Thread>, b: map<string, Thread>, id: string, status: string,
                   key: Option<MetaKey>, value: Option<T.Any>)
    requires Wrote(a, b, id, status, key, value)
    ensures WellKeyed(b) && LoadOrNew(b, id).status == status
  {
  }

  lemma ThreeWrites(t0: map<string, Thread>, t1: map<string, Thread>, t2: map<string, Thread>, t3: map<string, Thread>,
                    id: string, assistant: T.Any, graph: T.Any)
    requires Wrote(t0, t1, id, "busy", None, None) && Wrote(t1, t2, id, "busy", Some(AssistantID), Some(assistant))
    requires Wrote(t2, t3, id, "busy", Some(GraphID), Some(graph))
    ensures MetaOf(t3, id, AssistantID) == Some(assistant) && MetaOf(t3, id, GraphID) == Some(graph)
    ensures forall key | key != AssistantID && key != GraphID :: MetaOf(t3, id, key) == MetaOf(t0, id, key)
    ensures OthersKept(t0, t3, id)
  {
    hide MetaOf, LoadOrNew, WellKeyed;
  }

  lemma FourMoreWrites(t0: map<string, Thread>, t3: map<string, Thread>, t4: map<string, Thread>,
                       t5: map<string, Thread>,
                       t6: map<string, Thread>, t7: map<string, Thread>, id: string, run: T.Any, lifecycle: T.Any)
    requires OthersKept(t0, t3, id)
    requires forall key | key != AssistantID && key != GraphID :: MetaOf(t3, id, key) == MetaOf(t0, id, key)
    requires Wrote(t3, t4, id, "busy", Some(LastRunID), Some(run)) &&
             Wrote(t4, t5, id, "busy", Some(ActiveRunID), Some(run))
    requires Wrote(t5, t6, id, "busy", Some(LifecycleKey), Some(lifecycle)) &&
             Wrote(t6, t7, id, "busy", Some(Interrupts), None)
    ensures LoadOrNew(t7, id).status == "busy" && OthersKept(t0, t7, id)
    ensures MetaOf(t7, id, LastRunID) == Some(run) && MetaOf(t7, id, ActiveRunID) == Some(run)
    ensures MetaOf(t7, id, LifecycleKey) == Some(lifecycle) && MetaOf(t7, id, Interrupts) == None
    ensures MetaOf(t7, id, AssistantID) == MetaOf(t3, id, AssistantID) &&
            MetaOf(t7, id, GraphID) == MetaOf(t3, id, GraphID)
    ensures forall key | key !in {AssistantID, GraphID, Interrupts, ActiveRunID, LastRunID, LifecycleKey} ::
      MetaOf(t7, id, key) == MetaOf(t0, id, key)
  {
    hide MetaOf, LoadOrNew, WellKeyed;
  }
}
