/** What a run reports about itself as it begins, fails, is resumed and ends: the outcome saved in its
    record, and the lifecycle its thread shows (pkg/harnessruntime/outcome_service.go,
    run_state_service.go, completion_service.go). */
module RunReports {
  import opened GoStrings
  import opened RunState
  import opened RunOwnership
  import opened RunCompletion
  import opened Wrappers
  import T = TaskState
  import O = Outcomes
  import P = TaskProgress

  /** The lifecycle a reader of the thread gets. */
  function ShownLifecycle(threads: map<string, Thread>, id: string): O.TaskLifecycle {
    O.ParseLifecycle(MetaValue(LoadOrNew(threads, id), LifecycleKey))
  }

  lemma ShownIsWritten(threads: map<string, Thread>, id: string, l: O.TaskLifecycle)
    requires MetaOf(threads, id, LifecycleKey) == Some(O.LifecycleValue(l)) && Trimmed(l.status)
    ensures ShownLifecycle(threads, id) == l
  {
    hide Trimmed, O.LifecycleValue, O.ParseLifecycle;
    O.LifecycleRoundTrips(l);
  }

  /** The outcome carries the run's position, its task state, the progress of that state and the same
      lists beside it. */
  ghost predicate Reports(d: O.Descriptor, record: RunRecord, status: string, error: string, state: T.TaskState) {
    && d.runStatus == status && d.lifecycle.status == status && d.error == error && d.taskState == state
    && d.attempt == record.attempt && d.resumeFromEvent == record.resumeFromEvent
    && d.resumeReason == record.resumeReason
    && O.Progress(d.lifecycle, state)
    && d.pendingTasks == d.lifecycle.pendingTasks && d.expectedArtifacts == d.lifecycle.expectedArtifacts
  }

  lemma DescribeReports(record: RunRecord, outcome: O.RunOutcome, error: string, state: T.TaskState)
    requires outcome.runStatus != ""
    ensures Reports(Describe(record, outcome, error, state, false), record, outcome.runStatus, error, state)
    ensures Describe(record, outcome, error, state, false).interrupted == outcome.interrupted
  {
    hide O.Progress, O.PendingTexts, T.Missing;
    O.LifecycleReportsProgress(outcome, state, false);
  }

  lemma StoredIsNormalized(threads: map<string, Thread>, id: string)
    ensures NormalizedTaskState(threads, id) == StoredTaskState(threads, id)
  {
    hide StoredTaskState, T.Normalized, T.NormalForm;
    P.StoredIsNormal(threads, id);
    T.NormalFormIsFixed(StoredTaskState(threads, id));
  }

  lemma PlainIsTrimmed(status: string)
    requires status == "running" || status == "error" || status == "interrupted"
    ensures Trimmed(status)
  {
    assert forall c | c in status :: IsPlain(c);
    PlainIsText(status);
  }

  lemma PlainIsText(word: string)
    requires word != "" && forall c | c in word :: IsPlain(c)
    ensures Trimmed(word)
  {
    assert word[0] in word && word[|word| - 1] in word;
  }

  /** A begun run reports that it is running, with the progress stored on its thread, and the thread
      shows it. */
  lemma BeginReports(w: World, record: RunRecord, now: int)
    requires WellKeyed(w.threads) && Canonical(record.threadID) && Canonical(record.runID)
    ensures record.runID in Begin(w, record, now).runs
    ensures var d := Begin(w, record, now).runs[record.runID].outcome;
      && Reports(d, record, "running", "", StoredTaskState(w.threads, record.threadID)) && !d.interrupted
      && ShownLifecycle(Begin(w, record, now).threads, record.threadID) == d.lifecycle
  {
    hide TrimSpace, Describe, NormalizedTaskState, StoredTaskState, Reports, MarkStatus, SetMeta, SetOwner, Trimmed,
         ShownLifecycle, MetaOf, LoadOrNew, WellKeyed, Canonical, OthersKept, O.LifecycleValue;
    StoredIsNormalized(w.threads, record.threadID);
    var r := record.(status := if record.status == "" then "running" else record.status);
    DescribeReports(r, O.RunOutcome(false, "running"), "", StoredTaskState(w.threads, record.threadID));
    BeginTakesThread(w, record, now);
    PlainIsTrimmed("running");
    var d := Begin(w, record, now).runs[record.runID].outcome;
    assert Reports(d, record, "running", "", StoredTaskState(w.threads, record.threadID)) by {
      SamePosition(d, r, record, "running", "", StoredTaskState(w.threads, record.threadID));
    }
    ReportedStatus(d, record, "running", "", StoredTaskState(w.threads, record.threadID));
    ShownIsWritten(Begin(w, record, now).threads, record.threadID, d.lifecycle);
  }

  lemma SamePosition(d: O.Descriptor, a: RunRecord, b: RunRecord, status: string, error: string, state: T.TaskState)
    requires Reports(d, a, status, error, state)
    requires a.attempt == b.attempt && a.resumeFromEvent == b.resumeFromEvent && a.resumeReason == b.resumeReason
    ensures Reports(d, b, status, error, state)
  {
    hide O.Progress;
  }

  lemma ReportedStatus(d: O.Descriptor, record: RunRecord, status: string, error: string, state: T.TaskState)
    requires Reports(d, record, status, error, state)
    ensures d.lifecycle.status == status
  {
  }

  /** A prepared run reports that it is running with no tasks yet, and its thread shows it. */
  lemma PrepareReports(w: World, threadID: string, assistantID: string, runID: string, now: int)
    requires WellKeyed(w.threads) && Canonical(threadID) && Canonical(runID)
    ensures var after := Prepare(w, threadID, assistantID, runID, now);
      runID in after.runs &&
      var r := after.runs[runID];
      && r.runID == runID && r.threadID == threadID && r.assistantID == assistantID && r.error == ""
      && r.resumeFromEvent == 0 && r.resumeReason == ""
      && Reports(r.outcome, r, "running", "", T.ZERO) && !r.outcome.interrupted
      && ShownLifecycle(after.threads, threadID) == r.outcome.lifecycle
  {
    hide TrimSpace, Describe, Reports, MarkStatus, SetMeta, ClearMeta, Trimmed, ShownLifecycle, MetaOf, LoadOrNew,
         WellKeyed, Canonical, OthersKept, O.LifecycleValue, Blank;
    var r := RunRecord(runID, threadID, assistantID, 1, 0, "", "running", "", O.NO_DESCRIPTOR, now, now);
    DescribeReports(r, O.RunOutcome(false, "running"), "", T.ZERO);
    PrepareTakesThread(w, threadID, assistantID, runID, now);
    PlainIsTrimmed("running");
    var saved := Prepare(w, threadID, assistantID, runID, now).runs[runID];
    SamePosition(saved.outcome, r, saved, "running", "", T.ZERO);
    ReportedStatus(saved.outcome, saved, "running", "", T.ZERO);
    ShownIsWritten(Prepare(w, threadID, assistantID, runID, now).threads, threadID, saved.outcome.lifecycle);
  }

  /** A failed run reports its error and a cancelled one that it was interrupted, with the progress
      stored on the thread, and a thread it may touch shows it. */
  lemma FailureReports(w: World, record: RunRecord, error: string, now: int)
    requires WellKeyed(w.threads) && Canonical(record.threadID) && Canonical(record.runID)
    ensures record.runID in MarkError(w, record, error, now).runs && record.runID in MarkCanceled(w, record, now).runs
    ensures var failed, canceled := MarkError(w, record, error, now), MarkCanceled(w, record, now);
      var e, c := failed.runs[record.runID], canceled.runs[record.runID];
      var state := StoredTaskState(w.threads, record.threadID);
      && e == record.(status := "error", error := error, updatedAt := now, outcome := e.outcome)
      && c == record.(status := "interrupted", error := "", updatedAt := now, outcome := c.outcome)
      && Reports(e.outcome, record, "error", error, state) && !e.outcome.interrupted
      && Reports(c.outcome, record, "interrupted", "", state) && c.outcome.interrupted
      && (CanMutate(w.threads, record) ==>
            && ShownLifecycle(failed.threads, record.threadID) == e.outcome.lifecycle
            && ShownLifecycle(canceled.threads, record.threadID) == c.outcome.lifecycle)
  {
    hide TrimSpace, Describe, NormalizedTaskState, StoredTaskState, Reports, MarkStatus, SetMeta, ClearOwner, Trimmed,
         ShownLifecycle, MetaOf, LoadOrNew, WellKeyed, Canonical, OthersKept, O.LifecycleValue, CanMutate;
    var state := StoredTaskState(w.threads, record.threadID);
    StoredIsNormalized(w.threads, record.threadID);
    DescribeReports(record, O.RunOutcome(false, "error"), error, state);
    DescribeReports(record, O.RunOutcome(true, "interrupted"), "", state);
    var e, c := ErrorRecord(w, record, error, now), CanceledRecord(w, record, now);
    ReportedStatus(e.outcome, record, "error", error, state);
    ReportedStatus(c.outcome, record, "interrupted", "", state);
    PlainIsTrimmed("error");
    PlainIsTrimmed("interrupted");
    if CanMutate(w.threads, record) {
      StatusesAreTrimmed();
      SameRights(w.threads, record, e);
      SameRights(w.threads, record, c);
      CloseSettlesThread(w, e, "error");
      CloseSettlesThread(w, c, "interrupted");
      ShownIsWritten(Close(w, e, "error").threads, record.threadID, e.outcome.lifecycle);
      ShownIsWritten(Close(w, c, "interrupted").threads, record.threadID, c.outcome.lifecycle);
    }
  }

  /** The outcome of a live run as its thread has it: running, with the progress stored there, or with
      the lifecycle shown there when no task is stored. */
  ghost predicate ReportsLive(d: O.Descriptor, record: RunRecord, threads: map<string, Thread>) {
    var state, shown := StoredTaskState(threads, record.threadID), ShownLifecycle(threads, record.threadID);
    if state.IsZero() && !shown.IsZero() then
      && d.runStatus == "running" && d.error == "" && !d.interrupted && d.taskState == state
      && d.attempt == record.attempt && d.resumeFromEvent == record.resumeFromEvent
      && d.resumeReason == record.resumeReason
      && d.lifecycle == shown && d.pendingTasks == shown.pendingTasks && d.expectedArtifacts == shown.expectedArtifacts
    else Reports(d, record, "running", "", state) && !d.interrupted
  }

  lemma LiveRunningReports(record: RunRecord, threads: map<string, Thread>)
    ensures ReportsLive(DescribeLiveRunning(record, threads), record, threads)
    ensures ReportsLive(BindRecord(record, DescribeLiveRunning(record, threads)), record, threads)
  {
    hide StoredTaskState, O.PendingTexts, T.Missing, O.ParseLifecycle, O.Progress, T.TaskState.IsZero,
         O.TaskLifecycle.IsZero;
    DescribeReports(record, O.RunOutcome(false, "running"), "", StoredTaskState(threads, record.threadID));
  }

  /** A record reconciled as live is the same run at its own attempt.  An outcome already running
      stays, with missing lists taken from its lifecycle; otherwise the outcome is running with the
      progress stored on the thread, or with the lifecycle shown there when no task is stored. */
  lemma ReconcileReports(w: World, record: RunRecord)
    ensures var r, d := ReconciledRecord(w, record), record.outcome;
      && r == record.(status := r.status, outcome := r.outcome)
      && r.status == (if record.status == "" then "running" else record.status)
      && r.outcome.attempt == record.attempt && r.outcome.resumeFromEvent == record.resumeFromEvent
      && r.outcome.resumeReason == record.resumeReason
      && if IsRunning(d.runStatus) then
           && r.outcome.runStatus == d.runStatus && r.outcome.lifecycle == d.lifecycle
           && r.outcome.taskState == d.taskState
           && r.outcome.pendingTasks == (if d.pendingTasks != [] then d.pendingTasks else d.lifecycle.pendingTasks)
           && r.outcome.expectedArtifacts ==
                (if d.expectedArtifacts != [] then d.expectedArtifacts else d.lifecycle.expectedArtifacts)
         else ReportsLive(r.outcome, record, w.threads)
  {
    hide StoredTaskState, IsRunning, DescribeLiveRunning, ReportsLive;
    var r := record.(status := if record.status == "" then "running" else record.status);
    LiveRunningReports(r, w.threads);
    LiveAtSamePosition(DescribeLiveRunning(r, w.threads), r, record, w.threads);
  }

  lemma LiveAtSamePosition(d: O.Descriptor, a: RunRecord, b: RunRecord, threads: map<string, Thread>)
    requires ReportsLive(d, a, threads) && a.threadID == b.threadID
    requires a.attempt == b.attempt && a.resumeFromEvent == b.resumeFromEvent && a.resumeReason == b.resumeReason
    ensures ReportsLive(d, b, threads)
    ensures d.attempt == b.attempt && d.resumeFromEvent == b.resumeFromEvent && d.resumeReason == b.resumeReason
  {
    hide StoredTaskState, ShownLifecycle, O.Progress;
  }

  /** A finished run reports the progress of the task state it leaves, which the next load reads, at
      its own attempt; a blocked one lists what blocked it instead. */
  lemma FinishReports(w: World, record: RunRecord, f: Finish, now: int)
    requires WellKeyed(w.threads) && Canonical(record.threadID) && Canonical(record.runID) &&
             CanMutate(w.threads, record)
    ensures var id, after := record.threadID, Finalize(w, record.threadID, record, f, now);
      record.runID in after.runs &&
      var d := after.runs[record.runID].outcome;
      var blocked := !f.interruptRequested && !f.allowed;
      && StoredTaskState(after.threads, id) == Reloaded(d.taskState)
      && d.attempt == record.attempt && d.resumeFromEvent == record.resumeFromEvent
      && d.resumeReason == record.resumeReason
      && (!blocked ==>
            O.Progress(d.lifecycle, d.taskState) && d.pendingTasks == d.lifecycle.pendingTasks &&
            d.expectedArtifacts == d.lifecycle.expectedArtifacts)
      && (blocked ==>
            d.lifecycle.pendingTasks == f.pendingTasks && d.lifecycle.expectedArtifacts == f.expectedArtifacts)
      && d.lifecycle.verifiedArtifacts == d.taskState.verifiedOutputs
      && d.lifecycle.status == (if f.interruptRequested then "paused"
                                else if f.outcome.runStatus == "" then "success" else f.outcome.runStatus)
  {
    hide TrimSpace, Complete, FinalizeState, CanMutate, FinishedTaskState, StoredTaskState, T.Missing,
         MetaOf, LoadOrNew, T.NormalForm, ActiveOf, Reloaded, O.PendingTexts, O.Progress, OthersKept, Canonical,
         WellKeyed;
    FinishSettlesThread(w, record, f, now);
    var id := record.threadID;
    var state := FinishedTaskState(StoredTaskState(w.threads, id), f);
    FinishedOutcome(w, record, f, now);
    O.LifecycleReportsProgress(f.outcome, state, false);
    O.LifecycleReportsProgress(f.outcome, state, true);
  }

  lemma FinishedOutcome(w: World, record: RunRecord, f: Finish, now: int)
    requires WellKeyed(w.threads) && Canonical(record.threadID) && CanMutate(w.threads, record)
    ensures var id, after := record.threadID, Finalize(w, record.threadID, record, f, now);
      record.runID in after.runs &&
      after.runs[record.runID].outcome ==
        BindRecord(record, BindRecord(record,
          CompletionDescriptor(id, f, FinishedTaskState(StoredTaskState(w.threads, id), f))))
  {
    hide TrimSpace, Complete, CanMutate, FinishedTaskState, StoredTaskState, CompletionDescriptor, BindRecord,
         SetMeta, ClearMeta, ClearOwner, Completed, WellKeyed, Canonical;
    CompleteWrites(w.threads, record.threadID, f);
  }

  /** A task event shows the run as running with the tasks as they then stand. */
  lemma ObservedProgressIsShown(threads: map<string, Thread>, id: string, e: P.TaskEvent)
    requires WellKeyed(threads) && Canonical(id) && P.StatusFor(e.kind).Some?
    ensures var after := P.Observed(threads, id, e);
      && ShownLifecycle(after, id).status == "running"
      && O.Progress(ShownLifecycle(after, id), StoredTaskState(after, id))
  {
    hide TrimSpace, SetMeta, ClearMeta, P.StatusFor, P.Upsert, Collapse, MetaOf, LoadOrNew, StoredTaskState, T.Value,
         O.LifecycleValue, T.NormalForm, ShownLifecycle, O.Progress, WellKeyed, OthersKept,
         O.DescribeLifecycle, Trimmed, T.TaskState.IsZero, P.RunningLifecycle;
    var state := P.UpsertEvent(StoredTaskState(threads, id), e, P.StatusFor(e.kind).value);
    P.StoredIsNormal(threads, id);
    P.UpsertIsIdempotent(StoredTaskState(threads, id), Collapse(e.taskID), Collapse(e.description),
                         P.StatusFor(e.kind).value);
    P.StoredStays(threads, id, state);
    StoredIsShown(threads, id, state);
  }

  lemma StoredIsShown(threads: map<string, Thread>, id: string, state: T.TaskState)
    requires WellKeyed(threads) && Canonical(id)
    ensures var l := ShownLifecycle(P.Stored(threads, id, state), id);
            l.status == "running" && O.Progress(l, state)
  {
    hide TrimSpace, SetMeta, ClearMeta, MetaOf, LoadOrNew, T.Value, O.LifecycleValue, ShownLifecycle, O.Progress,
         WellKeyed, Canonical, OthersKept, O.DescribeLifecycle, Trimmed, T.TaskState.IsZero;
    var l := P.RunningLifecycle(state);
    O.LifecycleReportsProgress(O.RunOutcome(false, "running"), state, false);
    PlainIsTrimmed("running");
    var shown := SetMeta(threads, id, LifecycleKey, O.LifecycleValue(l));
    SetMetaWrites(threads, id, LifecycleKey, O.LifecycleValue(l));
    ClearMetaWrites(shown, id, TaskStateKey);
    SetMetaWrites(shown, id, TaskStateKey, T.Value(state));
    ShownIsWritten(P.Stored(threads, id, state), id, l);
  }
}
