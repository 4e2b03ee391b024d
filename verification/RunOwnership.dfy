/** Who may change a thread.  A non-empty `active_run_id` should name a saved run of that
    thread that is still running, and a run that does not own its thread should leave the
    thread alone (pkg/harnessruntime/run_state_service.go, coordinator.go). */
module RunOwnership {
  import opened GoStrings
  import opened RunState
  import T = TaskState
  import O = Outcomes

  predicate Canonical(id: string) {
    id != "" && TrimSpace(id) == id
  }

  ghost predicate WellKeyed(threads: map<string, Thread>) {
    forall id | id in threads :: Canonical(id) && threads[id].threadID == id
  }

  ghost predicate KnownRun(w: World, runID: string) {
    runID in w.runs && Canonical(runID) && w.runs[runID].runID == runID && Canonical(w.runs[runID].threadID)
  }

  /** The owner of a thread, if it has one, is a saved, running run of that thread. */
  ghost predicate OwnerIsLive(w: World, threadID: string) {
    var active := ActiveOf(w.threads, threadID);
    active != "" ==> active in w.runs && w.runs[active].threadID == threadID && IsRunning(w.runs[active].status)
  }

  ghost predicate Inv(w: World) {
    && WellKeyed(w.threads)
    && (forall runID | runID in w.runs :: KnownRun(w, runID))
    && (forall threadID :: OwnerIsLive(w, threadID))
  }

  /** A record of a saved run, possibly an older version of it. */
  predicate Persisted(w: World, record: RunRecord) {
    record.runID in w.runs && record.threadID == w.runs[record.runID].threadID
  }

  // ---- what each write does to the owners -----------------------------------------------

  ghost predicate SameOwners(a: map<string, Thread>, b: map<string, Thread>) {
    forall id :: ActiveOf(a, id) == ActiveOf(b, id)
  }

  /** `b` has the owners of `a`, except that `threadID` is owned by `owner`. */
  ghost predicate OwnersExcept(a: map<string, Thread>, b: map<string, Thread>, threadID: string, owner: string) {
    forall id :: ActiveOf(b, id) == if id == threadID then owner else ActiveOf(a, id)
  }

  lemma CanonicalIsNotBlank(id: string)
    requires Canonical(id)
    ensures !Blank(id)
  {
  }

  /** Whatever IDs callers use, the store keeps each thread under its own trimmed ID and each status
      trimmed; a blank ID writes nothing. */
  lemma StoreStaysKeyed(threads: map<string, Thread>, id: string, status: string, key: MetaKey, value: T.Any)
    requires WellKeyed(threads)
    ensures WellKeyed(MarkStatus(threads, id, status)) && WellKeyed(SetMeta(threads, id, key, value)) &&
            WellKeyed(ClearMeta(threads, id, key))
    ensures Blank(id) ==> MarkStatus(threads, id, status) == threads && SetMeta(threads, id, key, value) == threads
    ensures !Blank(id) ==>
      && TrimSpace(id) in MarkStatus(threads, id, status) && TrimSpace(id) in SetMeta(threads, id, key, value)
      && MarkStatus(threads, id, status)[TrimSpace(id)].status == TrimSpace(status)
      && key in SetMeta(threads, id, key, value)[TrimSpace(id)].metadata
      && SetMeta(threads, id, key, value)[TrimSpace(id)].metadata[key] == value
  {
    hide TrimSpace;
    TrimSpaceFixed(id);
  }

  /** The owner is read without surrounding space, and only from a text. */
  lemma OwnerIsTrimmed(threads: map<string, Thread>, id: string)
    ensures TrimSpace(ActiveOf(threads, id)) == ActiveOf(threads, id)
    ensures id in threads && !MetaValue(threads[id], ActiveRunID).Text? ==> ActiveOf(threads, id) == ""
  {
    hide TrimSpace;
    TrimSpaceFixed("");
    if id in threads && MetaValue(threads[id], ActiveRunID).Text? {
      TrimSpaceFixed(MetaValue(threads[id], ActiveRunID).text);
    }
  }

  /** Ownership is decided between trimmed IDs: a run may touch its thread exactly when one of its IDs
      is blank, the thread has no owner, or the run is the owner. */
  lemma RightsAreByTrimmedID(threads: map<string, Thread>, record: RunRecord)
    ensures CanMutate(threads, record) <==>
            TrimSpace(record.threadID) == "" || TrimSpace(record.runID) == "" ||
            ActiveOf(threads, TrimSpace(record.threadID)) in {"", TrimSpace(record.runID)}
  {
    hide TrimSpace, ActiveOf;
  }

  /** Setting and clearing the owner work on trimmed IDs too, and do nothing for a record with a blank
      one. */
  lemma OwnersAreSetByTrimmedID(threads: map<string, Thread>, record: RunRecord)
    requires WellKeyed(threads)
    ensures var id, runID := TrimSpace(record.threadID), TrimSpace(record.runID);
      var owned, cleared := SetOwner(threads, record), ClearOwner(threads, record);
      if id == "" || runID == "" then owned == threads && cleared == threads
      else
        && OwnersExcept(threads, owned, id, runID)
        && id in owned && MetaValue(owned[id], LastRunID) == T.Text(runID)
        && (CanMutate(threads, record) ==> OwnersExcept(threads, cleared, id, ""))
        && (!CanMutate(threads, record) ==> cleared == threads)
  {
    hide TrimSpace;
    var id, runID := TrimSpace(record.threadID), TrimSpace(record.runID);
    TrimSpaceFixed(record.threadID);
    TrimSpaceFixed(record.runID);
    if id != "" && runID != "" {
      TrimSpaceFixed("");
    }
  }

  lemma MarkStatusKeepsOwners(threads: map<string, Thread>, id: string, status: string)
    requires WellKeyed(threads) && Canonical(id)
    ensures WellKeyed(MarkStatus(threads, id, status))
    ensures SameOwners(threads, MarkStatus(threads, id, status))
  {
    hide TrimSpace;
  }

  lemma SetMetaKeepsOwners(threads: map<string, Thread>, id: string, key: MetaKey, value: T.Any)
    requires WellKeyed(threads) && Canonical(id) && key != ActiveRunID
    ensures WellKeyed(SetMeta(threads, id, key, value))
    ensures SameOwners(threads, SetMeta(threads, id, key, value))
  {
    hide TrimSpace;
  }

  lemma ClearMetaKeepsOwners(threads: map<string, Thread>, id: string, key: MetaKey)
    requires WellKeyed(threads) && Canonical(id) && key != ActiveRunID
    ensures WellKeyed(ClearMeta(threads, id, key))
    ensures SameOwners(threads, ClearMeta(threads, id, key))
  {
    hide TrimSpace;
  }

  lemma SetActiveTakes(threads: map<string, Thread>, id: string, runID: string)
    requires WellKeyed(threads) && Canonical(id) && Canonical(runID)
    ensures WellKeyed(SetMeta(threads, id, ActiveRunID, T.Text(runID)))
    ensures OwnersExcept(threads, SetMeta(threads, id, ActiveRunID, T.Text(runID)), id, runID)
  {
    hide TrimSpace;
  }

  lemma SetOwnerTakes(threads: map<string, Thread>, record: RunRecord)
    requires WellKeyed(threads) && Canonical(record.threadID) && Canonical(record.runID)
    ensures WellKeyed(SetOwner(threads, record))
    ensures OwnersExcept(threads, SetOwner(threads, record), record.threadID, record.runID)
  {
    hide TrimSpace, SetMeta, ActiveOf;
    var runID := T.Text(record.runID);
    var last := SetMeta(threads, record.threadID, LastRunID, runID);
    SetMetaKeepsOwners(threads, record.threadID, LastRunID, runID);
    SetActiveTakes(last, record.threadID, record.runID);
    assert SetOwner(threads, record) == SetMeta(last, record.threadID, ActiveRunID, runID);
  }

  lemma ClearOwnerFrees(threads: map<string, Thread>, record: RunRecord)
    requires WellKeyed(threads) && Canonical(record.threadID) && Canonical(record.runID)
    ensures WellKeyed(ClearOwner(threads, record))
    ensures !CanMutate(threads, record) ==> ClearOwner(threads, record) == threads
    ensures CanMutate(threads, record) ==> OwnersExcept(threads, ClearOwner(threads, record), record.threadID, "")
  {
    hide TrimSpace;
  }

  lemma SameOwnersSameRights(a: map<string, Thread>, b: map<string, Thread>, record: RunRecord)
    requires SameOwners(a, b)
    ensures CanMutate(a, record) == CanMutate(b, record)
  {
    hide TrimSpace, ActiveOf;
  }

  // ---- what each operation does to the runs and the owners ------------------------------

  /** `after` is `before` with the record saved and, when the run may touch its thread, the
      thread freed; when it may not, no thread changes at all. */
  ghost predicate Freed(before: World, after: World, record: RunRecord) {
    && WellKeyed(after.threads)
    && after.runs == before.runs[record.runID := record]
    && (CanMutate(before.threads, record) ==> OwnersExcept(before.threads, after.threads, record.threadID, ""))
    && (!CanMutate(before.threads, record) ==> SameOwners(before.threads, after.threads))
  }

  lemma CloseFrees(w: World, record: RunRecord, status: string)
    requires WellKeyed(w.threads) && Canonical(record.threadID) && Canonical(record.runID)
    ensures Freed(w, Close(w, record, status), record)
    ensures !CanMutate(w.threads, record) ==> Close(w, record, status).threads == w.threads
  {
    hide TrimSpace, ActiveOf, MarkStatus, SetMeta, ClearOwner, CanMutate, O.LifecycleValue;
    var shown := SetLifecycle(w.threads, record.threadID, record.outcome.lifecycle);
    SetMetaKeepsOwners(w.threads, record.threadID, LifecycleKey, O.LifecycleValue(record.outcome.lifecycle));
    MarkStatusKeepsOwners(shown, record.threadID, status);
    var marked := MarkStatus(shown, record.threadID, status);
    var threads := if CanMutate(w.threads, record) then marked else w.threads;
    SameOwnersSameRights(w.threads, threads, record);
    ClearOwnerFrees(threads, record);
  }

  lemma FinalizeStateFrees(w: World, record: RunRecord)
    requires WellKeyed(w.threads) && Canonical(record.threadID) && Canonical(record.runID)
    ensures Freed(w, FinalizeState(w, record), record)
    ensures !CanMutate(w.threads, record) ==> FinalizeState(w, record).threads == w.threads
  {
    hide TrimSpace, ActiveOf, MarkStatus, SetMeta, ClearMeta, ClearOwner, CanMutate, O.LifecycleValue;
    SetMetaKeepsOwners(w.threads, record.threadID, LifecycleKey, O.LifecycleValue(record.outcome.lifecycle));
    ClearMetaKeepsOwners(w.threads, record.threadID, LifecycleKey);
    var threads := if !CanMutate(w.threads, record) then w.threads
                   else if record.outcome.lifecycle.IsZero() then ClearMeta(w.threads, record.threadID, LifecycleKey)
                   else SetLifecycle(w.threads, record.threadID, record.outcome.lifecycle);
    SameOwnersSameRights(w.threads, threads, record);
    ClearOwnerFrees(threads, record);
  }

  /** Completion never changes an owner, and without a runtime it changes no thread. */
  lemma CompleteKeepsOwners(threads: map<string, Thread>, owner: bool, threadID: string, f: Finish)
    requires WellKeyed(threads)
    ensures WellKeyed(Complete(threads, owner, threadID, f).0)
    ensures SameOwners(threads, Complete(threads, owner, threadID, f).0)
    ensures !owner ==> Complete(threads, owner, threadID, f).0 == threads
  {
    hide TrimSpace, ActiveOf, MarkStatus, SetMeta, ClearMeta, CompletionDescriptor, FinishedTaskState,
         StoredTaskState, O.LifecycleValue, T.Value;
    var id := TrimSpace(threadID);
    TrimSpaceFixed(threadID);
    if id != "" && owner {
      var t1 := if !Blank(f.title) then SetMeta(threads, id, Title, T.Text(TrimSpace(f.title))) else threads;
      SetMetaKeepsOwners(threads, id, Title, T.Text(TrimSpace(f.title)));
      var taskState := FinishedTaskState(StoredTaskState(t1, id), f);
      var d := CompletionDescriptor(id, f, taskState);
      var t2 := if taskState.IsZero() then ClearMeta(t1, id, TaskStateKey)
        else SetMeta(t1, id, TaskStateKey, T.Value(taskState));
      ClearMetaKeepsOwners(t1, id, TaskStateKey);
      SetMetaKeepsOwners(t1, id, TaskStateKey, T.Value(taskState));
      var t3 := if f.interruptRequested then SetMeta(t2, id, Interrupts, T.List([f.interrupt]))
        else ClearMeta(t2, id, Interrupts);
      SetMetaKeepsOwners(t2, id, Interrupts, T.List([f.interrupt]));
      ClearMetaKeepsOwners(t2, id, Interrupts);
      var t4 := SetMeta(t3, id, LifecycleKey, O.LifecycleValue(d.lifecycle));
      SetMetaKeepsOwners(t3, id, LifecycleKey, O.LifecycleValue(d.lifecycle));
      MarkStatusKeepsOwners(t4, id, if f.interruptRequested then "interrupted" else "idle");
    }
  }

  /** Two versions of one run's record, at the same attempt. */
  predicate SameRun(a: RunRecord, b: RunRecord) {
    a.runID == b.runID && a.threadID == b.threadID && a.attempt == b.attempt
  }

  lemma FinalizeFrees(w: World, threadID: string, record: RunRecord, f: Finish, now: int)
    requires WellKeyed(w.threads) && Canonical(record.threadID) && Canonical(record.runID)
    ensures exists final: RunRecord :: SameRun(final, record) && Freed(w, Finalize(w, threadID, record, f, now), final)
    ensures !CanMutate(w.threads, record) ==> Finalize(w, threadID, record, f, now).threads == w.threads
  {
    hide TrimSpace, ActiveOf, Complete, FinalizeState;
    var owner := CanMutate(w.threads, record);
    var (threads, d) := Complete(w.threads, owner, threadID, f);
    CompleteKeepsOwners(w.threads, owner, threadID, f);
    var final := FinalRecord(record, d, now);
    FinalizeStateFrees(w.(threads := threads), final);
    SameOwnersSameRights(w.threads, threads, final);
    assert Freed(w, Finalize(w, threadID, record, f, now), final);
  }

  /** `after` is `before` with the thread of `record` owned by that run. */
  ghost predicate Taken(before: World, after: World, record: RunRecord) {
    WellKeyed(after.threads) && OwnersExcept(before.threads, after.threads, record.threadID, record.runID)
  }

  lemma BeginTakes(w: World, record: RunRecord, now: int)
    requires WellKeyed(w.threads) && Canonical(record.threadID) && Canonical(record.runID)
    ensures Taken(w, Begin(w, record, now), record)
    ensures Begin(w, record, now).runs == w.runs[record.runID := BegunRecord(w, record, now)]
  {
    hide TrimSpace, ActiveOf, MarkStatus, SetMeta, SetOwner, NormalizedTaskState, Describe, O.LifecycleValue;
    var r := BegunRecord(w, record, now);
    var shown := SetLifecycle(w.threads, r.threadID, r.outcome.lifecycle);
    SetMetaKeepsOwners(w.threads, r.threadID, LifecycleKey, O.LifecycleValue(r.outcome.lifecycle));
    MarkStatusKeepsOwners(shown, r.threadID, "busy");
    SetOwnerTakes(MarkStatus(shown, r.threadID, "busy"), r);
  }

  lemma ReconcileTakes(w: World, record: RunRecord)
    requires WellKeyed(w.threads) && Canonical(record.threadID) && Canonical(record.runID)
    ensures ReconcileLive(w, record).runs == w.runs
    ensures CanMutate(w.threads, record) ==> Taken(w, ReconcileLive(w, record), record)
    ensures !CanMutate(w.threads, record) ==> ReconcileLive(w, record) == w
  {
    hide TrimSpace, ActiveOf, MarkStatus, SetMeta, SetOwner, DescribeLiveRunning, BindRecord, O.LifecycleValue,
         IsRunning;
    var r := ReconciledRecord(w, record);
    var shown := if r.outcome.lifecycle.IsZero() then w.threads
      else SetLifecycle(w.threads, r.threadID, r.outcome.lifecycle);
    SetMetaKeepsOwners(w.threads, r.threadID, LifecycleKey, O.LifecycleValue(r.outcome.lifecycle));
    MarkStatusKeepsOwners(shown, r.threadID, "busy");
    SetOwnerTakes(MarkStatus(shown, r.threadID, "busy"), r);
  }

  lemma PrepareTakes(w: World, threadID: string, assistantID: string, runID: string, now: int)
    requires WellKeyed(w.threads) && Canonical(threadID) && Canonical(runID)
    ensures Taken(w, Prepare(w, threadID, assistantID, runID, now), PreparedRecord(threadID, assistantID, runID, now))
  {
    hide TrimSpace, ActiveOf, MarkStatus, SetMeta, ClearMeta, Describe, O.LifecycleValue, Blank;
    var r := PreparedRecord(threadID, assistantID, runID, now);
    var graph := T.Text(if Blank(assistantID) then "lead_agent" else TrimSpace(assistantID));
    MarkStatusKeepsOwners(w.threads, threadID, "busy");
    var t1 := MarkStatus(w.threads, threadID, "busy");
    SetMetaKeepsOwners(t1, threadID, AssistantID, T.Text(assistantID));
    var t2 := SetMeta(t1, threadID, AssistantID, T.Text(assistantID));
    SetMetaKeepsOwners(t2, threadID, GraphID, graph);
    var t3 := SetMeta(t2, threadID, GraphID, graph);
    SetMetaKeepsOwners(t3, threadID, LastRunID, T.Text(runID));
    var t4 := SetMeta(t3, threadID, LastRunID, T.Text(runID));
    SetActiveTakes(t4, threadID, runID);
    var t5 := SetMeta(t4, threadID, ActiveRunID, T.Text(runID));
    SetMetaKeepsOwners(t5, threadID, LifecycleKey, O.LifecycleValue(r.outcome.lifecycle));
    var t6 := SetMeta(t5, threadID, LifecycleKey, O.LifecycleValue(r.outcome.lifecycle));
    ClearMetaKeepsOwners(t6, threadID, Interrupts);
    assert OwnersExcept(w.threads, t6, threadID, runID);
  }

  // ---- the invariant --------------------------------------------------------------------

  lemma FreedKeepsInv(before: World, after: World, record: RunRecord)
    requires Inv(before) && Persisted(before, record) && Freed(before, after, record)
    ensures Inv(after)
  {
    hide TrimSpace, ActiveOf, IsRunning, WellKeyed, ToLower;
    assert KnownRun(before, record.runID);
    CanonicalIsNotBlank(record.runID);
    CanonicalIsNotBlank(record.threadID);
    forall id ensures OwnerIsLive(after, id) {
      assert OwnerIsLive(before, id);
    }
    forall runID | runID in after.runs ensures KnownRun(after, runID) {
      assert runID == record.runID || KnownRun(before, runID);
    }
  }

  /** Taking a thread keeps the invariant exactly when the run saved under the taker's ID is running. */
  lemma TakenKeepsInv(before: World, after: World, record: RunRecord)
    requires Inv(before) && Canonical(record.runID) && Canonical(record.threadID) && Taken(before, after, record)
    requires record.runID in after.runs && after.runs[record.runID].runID == record.runID
    requires after.runs[record.runID].threadID == record.threadID
    requires forall id | id in before.runs && id != record.runID ::
             id in after.runs && after.runs[id] == before.runs[id]
    requires forall id | id in after.runs :: id in before.runs || id == record.runID
    requires record.runID in before.runs ==> before.runs[record.runID].threadID == record.threadID
    ensures Inv(after) <==> IsRunning(after.runs[record.runID].status)
  {
    hide TrimSpace, ActiveOf, IsRunning, WellKeyed, ToLower;
    forall runID | runID in after.runs ensures KnownRun(after, runID) {
      assert runID == record.runID || KnownRun(before, runID);
    }
    forall id | id != record.threadID ensures OwnerIsLive(after, id) {
      assert OwnerIsLive(before, id);
    }
    assert ActiveOf(after.threads, record.threadID) == record.runID;
    assert OwnerIsLive(after, record.threadID) <==> IsRunning(after.runs[record.runID].status);
  }

  datatype Step =
    | PrepareStep(threadID: string, assistantID: string, runID: string, now: int)
    | BeginStep(record: RunRecord, now: int)
    | ReconcileStep(record: RunRecord)
    | ErrorStep(record: RunRecord, error: string, now: int)
    | CancelStep(record: RunRecord, now: int)
    | FinalizeStep(threadID: string, record: RunRecord, finish: Finish, now: int)

  function Next(w: World, s: Step): World {
    match s
    case PrepareStep(threadID, assistantID, runID, now) => Prepare(w, threadID, assistantID, runID, now)
    case BeginStep(record, now) => Begin(w, record, now)
    case ReconcileStep(record) => ReconcileLive(w, record)
    case ErrorStep(record, error, now) => MarkError(w, record, error, now)
    case CancelStep(record, now) => MarkCanceled(w, record, now)
    case FinalizeStep(threadID, record, finish, now) => Finalize(w, threadID, record, finish, now)
  }

  /** What callers provide: fresh IDs to `Prepare`, records of saved runs to everything else. */
  predicate Enabled(w: World, s: Step) {
    if s.PrepareStep? then Canonical(s.threadID) && Canonical(s.runID) && s.runID !in w.runs
    else Persisted(w, s.record)
  }

  /** The guard of the two branches that take a thread for a run that may be over. */
  predicate TakesForLiveRun(w: World, s: Step)
    requires Enabled(w, s)
  {
    match s
    case BeginStep(record, _) => IsRunning(record.status)
    case ReconcileStep(record) => !CanMutate(w.threads, record) || IsRunning(w.runs[record.runID].status)
    case _ => true
  }

  lemma LongerStatusIsOver(status: string)
    requires Trimmed(status) && |status| !in {0, 4, 6, 7}
    ensures !IsRunning(status)
  {
    hide TrimSpace, TrimLeft, TrimRight;
    TrimSpaceFixed(status);
    assert |ToLower(status)| == |status|;
  }

  lemma StatusWords()
    ensures IsRunning("running") && !IsRunning("error") && !IsRunning("interrupted")
  {
    hide TrimSpace, TrimLeft, TrimRight, ToLower;
    LongerStatusIsOver("error");
    LongerStatusIsOver("interrupted");
    TrimSpaceFixed("running");
    PlainWordIsFixed("running");
  }

  lemma InvFacts(w: World)
    requires Inv(w)
    ensures WellKeyed(w.threads) && forall runID | runID in w.runs :: KnownRun(w, runID)
  {
  }

  lemma BeginStatus(w: World, record: RunRecord, now: int)
    ensures var r := BegunRecord(w, record, now); SameRun(r, record) && IsRunning(r.status) == IsRunning(record.status)
  {
    hide TrimSpace, ToLower, NormalizedTaskState, Describe;
    StatusWords();
    assert TrimSpace("") == "" by { TrimSpaceFixed(""); }
    assert |ToLower("")| == 0;
  }

  lemma BeginKeepsInv(w: World, record: RunRecord, now: int)
    requires Inv(w) && Persisted(w, record)
    ensures Inv(Begin(w, record, now)) <==> IsRunning(record.status)
  {
    hide Inv, Begin, BegunRecord, Taken, IsRunning, Canonical, TrimSpace;
    InvFacts(w);
    assert KnownRun(w, record.runID);
    BeginTakes(w, record, now);
    BeginStatus(w, record, now);
    TakenKeepsInv(w, Begin(w, record, now), record);
  }

  lemma ReconcileKeepsInv(w: World, record: RunRecord)
    requires Inv(w) && Persisted(w, record)
    ensures Inv(ReconcileLive(w, record)) <==>
            !CanMutate(w.threads, record) || IsRunning(w.runs[record.runID].status)
  {
    hide Inv, ReconcileLive, Taken, IsRunning, Canonical, TrimSpace, CanMutate;
    InvFacts(w);
    assert KnownRun(w, record.runID);
    ReconcileTakes(w, record);
    if CanMutate(w.threads, record) {
      TakenKeepsInv(w, ReconcileLive(w, record), record);
    }
  }

  lemma PrepareKeepsInv(w: World, threadID: string, assistantID: string, runID: string, now: int)
    requires Inv(w) && Canonical(threadID) && Canonical(runID) && runID !in w.runs
    ensures Inv(Prepare(w, threadID, assistantID, runID, now))
  {
    hide Inv, Taken, IsRunning, Canonical, TrimSpace, SetMeta, ClearMeta, MarkStatus, Describe, Blank;
    InvFacts(w);
    StatusWords();
    PrepareTakes(w, threadID, assistantID, runID, now);
    TakenKeepsInv(w, Prepare(w, threadID, assistantID, runID, now), PreparedRecord(threadID, assistantID, runID, now));
  }

  lemma CloseKeepsInv(w: World, record: RunRecord, status: string)
    requires Inv(w) && Persisted(w, record)
    ensures Inv(Close(w, record, status))
  {
    hide Inv, Close, Freed, IsRunning, Canonical, TrimSpace;
    InvFacts(w);
    assert KnownRun(w, record.runID);
    CloseFrees(w, record, status);
    FreedKeepsInv(w, Close(w, record, status), record);
  }

  lemma FinalizeKeepsInv(w: World, threadID: string, record: RunRecord, f: Finish, now: int)
    requires Inv(w) && Persisted(w, record)
    ensures Inv(Finalize(w, threadID, record, f, now))
  {
    hide Inv, Finalize, Freed, IsRunning, Canonical, TrimSpace;
    InvFacts(w);
    assert KnownRun(w, record.runID);
    FinalizeFrees(w, threadID, record, f, now);
    var after := Finalize(w, threadID, record, f, now);
    var final: RunRecord :| SameRun(final, record) && Freed(w, after, final);
    FreedKeepsInv(w, after, final);
  }

  /** A step keeps the invariant exactly when it does not take a thread for a finished run. */
  lemma StepKeepsInv(w: World, s: Step)
    requires Inv(w) && Enabled(w, s)
    ensures Inv(Next(w, s)) <==> TakesForLiveRun(w, s)
  {
    hide Inv, IsRunning, Canonical, TrimSpace, CanMutate, Prepare, Begin, ReconcileLive, Close, Finalize, Describe,
         NormalizedTaskState;
    match s
    case PrepareStep(threadID, assistantID, runID, now) => PrepareKeepsInv(w, threadID, assistantID, runID, now);
    case BeginStep(record, now) => BeginKeepsInv(w, record, now);
    case ReconcileStep(record) => ReconcileKeepsInv(w, record);
    case ErrorStep(record, error, now) => CloseKeepsInv(w, ErrorRecord(w, record, error, now), "error");
    case CancelStep(record, now) => CloseKeepsInv(w, CanceledRecord(w, record, now), "interrupted");
    case FinalizeStep(threadID, record, finish, now) => FinalizeKeepsInv(w, threadID, record, finish, now);
  }

  const EMPTY := World(map[], map[])

  function Run(steps: seq<Step>): World {
    if steps == [] then EMPTY else Next(Run(steps[..|steps| - 1]), steps[|steps| - 1])
  }

  /** Every step finds its record saved, and none takes a thread for a finished run. */
  predicate Orderly(steps: seq<Step>) {
    forall i | 0 <= i < |steps| :: Enabled(Run(steps[..i]), steps[i]) && TakesForLiveRun(Run(steps[..i]), steps[i])
  }

  lemma PrefixOf<E>(s: seq<E>, n: nat, m: nat)
    requires m <= n <= |s|
    ensures s[..n][..m] == s[..m]
  {
  }

  /** In every state an orderly run of steps reaches, an owner is a saved, running run of its thread. */
  lemma {:induction false} OwnersAreLive(steps: seq<Step>)
    requires Orderly(steps)
    ensures Inv(Run(steps))
    decreases |steps|
  {
    hide Inv, Enabled, TakesForLiveRun, Next;
    if steps == [] {
      EmptyInv();
    } else {
      var n := |steps| - 1;
      forall i | 0 <= i < n
        ensures Enabled(Run(steps[..n][..i]), steps[..n][i]) && TakesForLiveRun(Run(steps[..n][..i]), steps[..n][i])
      {
        PrefixOf(steps, n, i);
      }
      OwnersAreLive(steps[..n]);
      StepKeepsInv(Run(steps[..n]), steps[n]);
    }
  }

  lemma EmptyInv()
    ensures Inv(EMPTY)
  {
  }

  /** Without the guard the invariant fails: a worker that begins a run cancelled before it was
      picked up gives the thread back to the dead run. */
  lemma LateBeginRevivesDeadOwner(threadID: string, runID: string)
    requires Canonical(threadID) && Canonical(runID)
    ensures var w1 := Prepare(EMPTY, threadID, "", runID, 1);
            runID in w1.runs &&
            var w2 := MarkCanceled(w1, w1.runs[runID], 2);
            runID in w2.runs && Inv(w2) && !Inv(Begin(w2, w2.runs[runID], 3))
  {
    hide Inv, Canonical, IsRunning, TrimSpace, SetMeta, ClearMeta, MarkStatus, Describe, Blank, Begin,
         NormalizedTaskState, ClearOwner, SetLifecycle, CanMutate;
    EmptyInv();
    StatusWords();
    var w1 := Prepare(EMPTY, threadID, "", runID, 1);
    PrepareKeepsInv(EMPTY, threadID, "", runID, 1);
    var canceled := CanceledRecord(w1, w1.runs[runID], 2);
    CloseKeepsInv(w1, canceled, "interrupted");
    var w2 := MarkCanceled(w1, w1.runs[runID], 2);
    BeginKeepsInv(w2, w2.runs[runID], 3);
  }

  /** The same happens to a recovery that still holds the record of a run cancelled meanwhile. */
  lemma LateReconcileRevivesDeadOwner(threadID: string, runID: string)
    requires Canonical(threadID) && Canonical(runID)
    ensures var w1 := Prepare(EMPTY, threadID, "", runID, 1);
            runID in w1.runs &&
            var w2 := MarkCanceled(w1, w1.runs[runID], 2);
            Persisted(w2, w1.runs[runID]) && Inv(w2) && !Inv(ReconcileLive(w2, w1.runs[runID]))
  {
    hide Inv, IsRunning, TrimSpace, SetMeta, ClearMeta, MarkStatus, Describe, Blank, Close, ReconcileLive,
         NormalizedTaskState, WellKeyed, ActiveOf;
    EmptyInv();
    StatusWords();
    InvFacts(EMPTY);
    var w1 := Prepare(EMPTY, threadID, "", runID, 1);
    PrepareTakes(EMPTY, threadID, "", runID, 1);
    PrepareKeepsInv(EMPTY, threadID, "", runID, 1);
    var record := w1.runs[runID];
    var canceled := CanceledRecord(w1, record, 2);
    InvFacts(w1);
    CloseFrees(w1, canceled, "interrupted");
    CloseKeepsInv(w1, canceled, "interrupted");
    var w2 := MarkCanceled(w1, record, 2);
    assert ActiveOf(w2.threads, threadID) == "";
    assert CanMutate(w2.threads, record);
    ReconcileKeepsInv(w2, record);
  }

  // ---- a run that does not own its thread ------------------------------------------------

  predicate IsFinish(s: Step) {
    s.ErrorStep? || s.CancelStep? || s.FinalizeStep?
  }

  /** However a run ends: when another run owns its thread no thread changes at all, otherwise
      the thread is free afterwards and every other thread keeps its owner; either way the only
      run record written is its own. */
  lemma FinishRespectsOwnership(w: World, s: Step)
    requires Inv(w) && Enabled(w, s) && IsFinish(s)
    ensures !CanMutate(w.threads, s.record) ==> Next(w, s).threads == w.threads
    ensures CanMutate(w.threads, s.record) ==> OwnersExcept(w.threads, Next(w, s).threads, s.record.threadID, "")
    ensures Next(w, s).runs.Keys == w.runs.Keys
    ensures forall id | id in w.runs && id != s.record.runID :: Next(w, s).runs[id] == w.runs[id]
    ensures SameRun(Next(w, s).runs[s.record.runID], s.record)
  {
    hide Inv, IsRunning, Canonical, TrimSpace, Close, Finalize, Describe, NormalizedTaskState, OwnersExcept;
    InvFacts(w);
    assert KnownRun(w, s.record.runID);
    match s
    case ErrorStep(record, error, now) => CloseFrees(w, ErrorRecord(w, record, error, now), "error");
    case CancelStep(record, now) => CloseFrees(w, CanceledRecord(w, record, now), "interrupted");
    case FinalizeStep(threadID, record, finish, now) => FinalizeFrees(w, threadID, record, finish, now);
  }
}
