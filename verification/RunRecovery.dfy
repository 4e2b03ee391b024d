/** Resuming a run: which attempt a resume dispatches, and when it dispatches none
    (pkg/harnessruntime/recovery_planner.go, coordinator.go). */
module RunRecovery {
  import opened GoStrings
  import opened Wrappers
  import opened RunState
  import Q = RunQuery
  import R = RunOwnership
  import O = Outcomes
  import P = RunReports
  import T = TaskState
  import V = RunServices

  /** `isLiveRecoveryStatus`; unlike `IsRunning` it refuses a blank status. */
  predicate IsLive(status: string) {
    var word := ToLower(TrimSpace(status));
    word == "running" || word == "queued" || word == "busy"
  }

  /** `canReuseRecoveryAttempt`, for a reason already trimmed. */
  predicate CanReuse(record: RunRecord, afterEvent: int, reason: string) {
    record.attempt > 0 && IsLive(record.status) && record.resumeFromEvent == afterEvent &&
    TrimSpace(record.resumeReason) == reason
  }

  function NextAttempt(record: RunRecord, afterEvent: int, reason: string): int {
    if CanReuse(record, afterEvent, reason) then record.attempt
    else if record.attempt <= 0 then 2
    else record.attempt + 1
  }

  function NextRecord(threads: map<string, Thread>, record: RunRecord, afterEvent: int, rawReason: string): RunRecord {
    var reason := TrimSpace(rawReason);
    var next := record.(attempt := NextAttempt(record, afterEvent, reason), resumeFromEvent := afterEvent,
                        resumeReason := reason, status := "running", error := "");
    next.(outcome := DescribeLiveRunning(next, threads))
  }

  /** `isIdempotentResume`. */
  predicate Idempotent(previous: RunRecord, next: RunRecord, afterEvent: int, reason: string) {
    && !Blank(previous.runID) && !Blank(next.runID) && TrimSpace(previous.runID) == TrimSpace(next.runID)
    && previous.attempt > 0 && next.attempt == previous.attempt
    && next.resumeFromEvent == afterEvent && TrimSpace(next.resumeReason) == TrimSpace(reason)
    && IsLive(previous.status)
  }

  datatype Resumed = Resumed(world: World, record: RunRecord, dispatched: Option<int>)

  /** `Coordinator.Resume`: the new state, the record returned and the attempt dispatched, if any. */
  function AfterResume(w: World, record: RunRecord, afterEvent: int, reason: string, now: int): Resumed {
    var next := NextRecord(w.threads, record, afterEvent, reason);
    if Idempotent(record, next, afterEvent, reason) then
      Resumed(ReconcileLive(w, next), ReconciledRecord(w, next), None)
    else
      match Q.FindRun(w.runs, next.threadID, next.runID)
      case Some(persisted) =>
        if Idempotent(persisted, next, afterEvent, reason) then
          Resumed(ReconcileLive(w, persisted), ReconciledRecord(w, persisted), None)
        else Dispatched(w, next, now)
      case None => Dispatched(w, next, now)
  }

  function Dispatched(w: World, next: RunRecord, now: int): Resumed {
    Resumed(Begin(w, next, now), BegunRecord(w, next, now), Some(next.attempt))
  }

  class Coordinator {
    const runState: V.RunStateService
    const query: Q.QueryService

    constructor (runState: V.RunStateService, query: Q.QueryService)
      ensures this.runState == runState && this.query == query
    {
      this.runState := runState;
      this.query := query;
    }

    ghost predicate Valid() {
      query.runs == runState.runs && query.threads == runState.threads
    }

    method Resume(record: RunRecord, afterEvent: int, reason: string, now: int)
      returns (saved: RunRecord, dispatched: Option<int>)
      requires Valid()
      modifies runState.runs, runState.threads
      ensures Resumed(runState.World(), saved, dispatched) ==
              AfterResume(old(runState.World()), record, afterEvent, reason, now)
    {
      hide TrimSpace, Begin, ReconcileLive, ReconciledRecord, BegunRecord, Idempotent, NextRecord, Q.FindRun,
           V.RecordsOf;
      var next := NextRecord(runState.threads.states, record, afterEvent, reason);
      if Idempotent(record, next, afterEvent, reason) {
        saved := runState.ReconcileLive(next);
        return saved, None;
      }
      var persisted := query.Run(next.threadID, next.runID);
      if persisted.Some? && Idempotent(persisted.value, next, afterEvent, reason) {
        saved := runState.ReconcileLive(persisted.value);
        return saved, None;
      }
      saved := runState.Begin(next, now);
      return saved, Some(next.attempt);
    }
  }

  // ---- what a resume dispatches -----------------------------------------------------------

  lemma LiveIsRunning(status: string)
    ensures IsLive(status) ==> IsRunning(status)
    ensures IsLive("running")
  {
    hide TrimSpace, ToLower;
    PlainWordIsFixed("running");
  }

  lemma NextRecordFields(threads: map<string, Thread>, record: RunRecord, afterEvent: int, reason: string)
    ensures var next := NextRecord(threads, record, afterEvent, reason);
      && next.runID == record.runID && next.threadID == record.threadID
      && next.attempt == NextAttempt(record, afterEvent, TrimSpace(reason))
      && next.resumeFromEvent == afterEvent && next.status == "running"
      && TrimSpace(next.resumeReason) == TrimSpace(reason)
  {
    hide TrimSpace, DescribeLiveRunning, NextAttempt;
    TrimSpaceFixed(reason);
  }

  lemma PersistedIsFound(w: World, record: RunRecord)
    requires R.Inv(w) && R.Persisted(w, record)
    ensures Q.FindRun(w.runs, record.threadID, record.runID) == Some(Q.Bound(w.runs[record.runID]))
    ensures R.Canonical(record.runID) && !Blank(record.runID) && TrimSpace(record.runID) == record.runID
    ensures w.runs[record.runID].runID == record.runID
  {
    hide TrimSpace, BindRecord, R.OwnerIsLive, R.WellKeyed;
    assert R.KnownRun(w, record.runID);
  }

  /** A resume dispatches nothing in exactly two cases: the record in hand already is the live
      attempt asked for, or the saved record is live at the very attempt it would start. */
  lemma ResumeDispatches(w: World, record: RunRecord, afterEvent: int, reason: string, now: int)
    requires R.Inv(w) && R.Persisted(w, record)
    ensures var saved := w.runs[record.runID];
      var attempt := NextAttempt(record, afterEvent, TrimSpace(reason));
      AfterResume(w, record, afterEvent, reason, now).dispatched ==
        if CanReuse(record, afterEvent, TrimSpace(reason)) || (attempt == saved.attempt && IsLive(saved.status)) then
          None
        else Some(attempt)
  {
    hide TrimSpace, DescribeLiveRunning, BindRecord, NextRecord, IsLive, Begin, ReconcileLive, ReconciledRecord,
         BegunRecord, R.Inv, R.Persisted, Q.FindRun, Blank;
    NextRecordFields(w.threads, record, afterEvent, reason);
    PersistedIsFound(w, record);
  }

  /** Whether the resume takes the thread for a run that the store says is over. */
  predicate ResumesSavedRun(w: World, record: RunRecord, afterEvent: int, reason: string)
    requires R.Persisted(w, record)
  {
    CanReuse(record, afterEvent, TrimSpace(reason)) ==>
      !CanMutate(w.threads, record) || IsRunning(w.runs[record.runID].status)
  }

  lemma CanMutateByIDs(threads: map<string, Thread>, a: RunRecord, b: RunRecord)
    requires a.runID == b.runID && a.threadID == b.threadID
    ensures CanMutate(threads, a) == CanMutate(threads, b)
  {
    hide TrimSpace;
  }

  /** A resume keeps the ownership invariant exactly when it does not reuse a stale live record
      of a run that is over. */
  lemma ResumeKeepsOwnership(w: World, record: RunRecord, afterEvent: int, reason: string, now: int)
    requires R.Inv(w) && R.Persisted(w, record)
    ensures R.Inv(AfterResume(w, record, afterEvent, reason, now).world) <==>
            ResumesSavedRun(w, record, afterEvent, reason)
  {
    hide TrimSpace, DescribeLiveRunning, BindRecord, NextRecord, IsLive, IsRunning, Begin, ReconcileLive,
         ReconciledRecord, BegunRecord, R.Inv, Q.FindRun, Blank, CanMutate;
    var next := NextRecord(w.threads, record, afterEvent, reason);
    NextRecordFields(w.threads, record, afterEvent, reason);
    PersistedIsFound(w, record);
    CanMutateByIDs(w.threads, record, next);
    R.StatusWords();
    var persisted := Q.Bound(w.runs[record.runID]);
    LiveIsRunning(persisted.status);
    if CanReuse(record, afterEvent, TrimSpace(reason)) {
      R.ReconcileKeepsInv(w, next);
    } else if Idempotent(persisted, next, afterEvent, reason) {
      R.InvFacts(w);
      assert R.KnownRun(w, record.runID);
      R.ReconcileKeepsInv(w, persisted);
    } else {
      R.BeginKeepsInv(w, next, now);
    }
  }

  /** The failing case is reached: a run is cancelled, and a client that still holds its first
      record resumes it from where that record stands. */
  lemma LateResumeRevivesDeadOwner(threadID: string, runID: string, now: int)
    requires R.Canonical(threadID) && R.Canonical(runID)
    ensures var w1 := Prepare(R.EMPTY, threadID, "", runID, 1);
            runID in w1.runs &&
            var w2 := MarkCanceled(w1, w1.runs[runID], 2);
            R.Persisted(w2, w1.runs[runID]) && R.Inv(w2) &&
            !R.Inv(AfterResume(w2, w1.runs[runID], 0, "", now).world)
  {
    hide R.Inv, R.Canonical, IsRunning, IsLive, TrimSpace, SetMeta, ClearMeta, MarkStatus, Describe, Blank, Close,
         ReconcileLive, AfterResume, CanMutate;
    R.LateReconcileRevivesDeadOwner(threadID, runID);
    var w1 := Prepare(R.EMPTY, threadID, "", runID, 1);
    var record := w1.runs[runID];
    var w2 := MarkCanceled(w1, record, 2);
    R.ReconcileKeepsInv(w2, record);
    ResumeKeepsOwnership(w2, record, 0, "", now);
    LiveIsRunning("running");
    TrimSpaceFixed("");
    assert CanReuse(record, 0, TrimSpace(""));
  }

  // ---- no attempt is dispatched twice -----------------------------------------------------

  datatype Dispatch = Dispatch(runID: string, attempt: int)

  datatype State = State(world: World, log: seq<Dispatch>)

  datatype Step =
    | ResumeStep(record: RunRecord, afterEvent: int, reason: string, now: int)
    | RunStep(step: R.Step)

  /** `Prepare` submits the first attempt; after that only `Resume` dispatches. */
  function Next(s: State, step: Step): State {
    match step
    case ResumeStep(record, afterEvent, reason, now) =>
      var r := AfterResume(s.world, record, afterEvent, reason, now);
      State(r.world, match r.dispatched case Some(n) => s.log + [Dispatch(record.runID, n)] case None => s.log)
    case RunStep(step) =>
      State(R.Next(s.world, step), if step.PrepareStep? then s.log + [Dispatch(step.runID, 1)] else s.log)
  }

  predicate Enabled(s: State, step: Step) {
    match step
    case ResumeStep(record, _, _, _) => R.Persisted(s.world, record)
    case RunStep(step) => R.Enabled(s.world, step)
  }

  /** Later dispatches of a run have larger attempt numbers. */
  ghost predicate Increasing(log: seq<Dispatch>) {
    forall i, j | 0 <= i < j < |log| && log[i].runID == log[j].runID :: log[i].attempt < log[j].attempt
  }

  ghost predicate LogIsPast(w: World, log: seq<Dispatch>) {
    forall i | 0 <= i < |log| :: log[i].runID in w.runs && log[i].attempt <= w.runs[log[i].runID].attempt
  }

  /** Every saved run stands at an attempt that was dispatched. */
  ghost predicate SavedIsDispatched(w: World, log: seq<Dispatch>) {
    forall id | id in w.runs :: Dispatch(id, w.runs[id].attempt) in log
  }

  ghost predicate AttemptInv(s: State) {
    Increasing(s.log) && LogIsPast(s.world, s.log) && SavedIsDispatched(s.world, s.log)
  }

  /** What a caller can check beforehand: a record written back is at the saved attempt, and a
      resume that dispatches starts an attempt after the saved one. */
  predicate KeepsAttempts(s: State, step: Step)
    requires Enabled(s, step)
  {
    match step
    case ResumeStep(record, afterEvent, reason, _) =>
      var saved := s.world.runs[record.runID];
      var attempt := NextAttempt(record, afterEvent, TrimSpace(reason));
      CanReuse(record, afterEvent, TrimSpace(reason)) || attempt > saved.attempt ||
      (attempt == saved.attempt && IsLive(saved.status))
    case RunStep(step) =>
      step.PrepareStep? || step.ReconcileStep? || step.record.attempt == s.world.runs[step.record.runID].attempt
  }

  lemma LaterDispatchKeepsAttempts(w: World, after: World, log: seq<Dispatch>, record: RunRecord)
    requires AttemptInv(State(w, log)) && after.runs == w.runs[record.runID := record]
    requires record.runID in w.runs ==> w.runs[record.runID].attempt < record.attempt
    ensures AttemptInv(State(after, log + [Dispatch(record.runID, record.attempt)]))
  {
    var grown := log + [Dispatch(record.runID, record.attempt)];
    forall i, j | 0 <= i < j < |grown| && grown[i].runID == grown[j].runID ensures grown[i].attempt < grown[j].attempt {
      assert grown[i] == log[i] && (j < |log| ==> grown[j] == log[j]);
    }
    forall i | 0 <= i < |grown|
      ensures grown[i].runID in after.runs && grown[i].attempt <= after.runs[grown[i].runID].attempt
    {
      assert i < |log| ==> grown[i] == log[i];
    }
    forall id | id in after.runs ensures Dispatch(id, after.runs[id].attempt) in grown {
      assert grown[|log|] in grown;
    }
  }

  /** The log grows by `attempt` and the run is saved at it. */
  lemma DispatchKeepsAttempts(w: World, after: World, log: seq<Dispatch>, record: RunRecord)
    requires AttemptInv(State(w, log)) && after.runs == w.runs[record.runID := record]
    ensures AttemptInv(State(after, log + [Dispatch(record.runID, record.attempt)])) <==>
            record.runID !in w.runs || w.runs[record.runID].attempt < record.attempt
  {
    if record.runID in w.runs && record.attempt <= w.runs[record.runID].attempt {
      hide LogIsPast;
      var grown := log + [Dispatch(record.runID, record.attempt)];
      assert Dispatch(record.runID, w.runs[record.runID].attempt) in log;
      var i :| 0 <= i < |log| && log[i] == Dispatch(record.runID, w.runs[record.runID].attempt);
      assert grown[i] == log[i] && grown[|log|] == Dispatch(record.runID, record.attempt);
    } else {
      hide Increasing, LogIsPast, SavedIsDispatched;
      LaterDispatchKeepsAttempts(w, after, log, record);
    }
  }

  /** The log stays and a record of the run is written back. */
  lemma SaveKeepsAttempts(w: World, after: World, log: seq<Dispatch>, record: RunRecord)
    requires AttemptInv(State(w, log)) && record.runID in w.runs && after.runs == w.runs[record.runID := record]
    ensures AttemptInv(State(after, log)) <==> record.attempt == w.runs[record.runID].attempt
  {
    var saved := w.runs[record.runID].attempt;
    var i :| 0 <= i < |log| && log[i] == Dispatch(record.runID, saved);
    if AttemptInv(State(after, log)) {
      assert log[i].attempt <= record.attempt;
      var j :| 0 <= j < |log| && log[j] == Dispatch(record.runID, record.attempt);
      assert log[j].attempt <= saved;
    }
  }

  lemma ResumeWorld(w: World, record: RunRecord, afterEvent: int, reason: string, now: int) returns (saved: RunRecord)
    requires R.Inv(w) && R.Persisted(w, record)
    ensures var r := AfterResume(w, record, afterEvent, reason, now);
      && (r.dispatched.None? ==> r.world.runs == w.runs)
      && (r.dispatched.Some? ==> saved.runID == record.runID && saved.attempt == r.dispatched.value &&
                                 saved.status == "running" && r.world.runs == w.runs[record.runID := saved])
  {
    hide TrimSpace, DescribeLiveRunning, BindRecord, NextRecord, IsLive, IsRunning, Begin, ReconcileLive,
         ReconciledRecord, R.Inv, Q.FindRun, Blank, CanMutate, Describe, NormalizedTaskState;
    var next := NextRecord(w.threads, record, afterEvent, reason);
    NextRecordFields(w.threads, record, afterEvent, reason);
    PersistedIsFound(w, record);
    R.InvFacts(w);
    assert R.KnownRun(w, record.runID);
    R.ReconcileTakes(w, next);
    R.ReconcileTakes(w, Q.Bound(w.runs[record.runID]));
    R.BeginTakes(w, next, now);
    saved := BegunRecord(w, next, now);
  }

  /** A step keeps the attempts in order exactly when it meets the caller's check. */
  lemma StepKeepsAttempts(s: State, step: Step)
    requires R.Inv(s.world) && AttemptInv(s) && Enabled(s, step)
    ensures AttemptInv(Next(s, step)) <==> KeepsAttempts(s, step)
  {
    hide R.Inv, AttemptInv, AfterResume, R.Next, CanReuse, NextAttempt, IsLive, TrimSpace, R.Canonical;
    match step {
      case ResumeStep(record, afterEvent, reason, now) =>
        ResumeDispatches(s.world, record, afterEvent, reason, now);
        var saved := ResumeWorld(s.world, record, afterEvent, reason, now);
        var r := AfterResume(s.world, record, afterEvent, reason, now);
        if r.dispatched.Some? {
          DispatchKeepsAttempts(s.world, r.world, s.log, saved);
        } else {
          SameRunsKeepAttempts(s.world, r.world, s.log);
        }
      case RunStep(inner) =>
        RunStepKeepsAttempts(s, inner);
    }
  }

  lemma SameRunsKeepAttempts(w: World, after: World, log: seq<Dispatch>)
    requires w.runs == after.runs
    ensures AttemptInv(State(after, log)) == AttemptInv(State(w, log))
  {
  }

  lemma RunStepKeepsAttempts(s: State, step: R.Step)
    requires R.Inv(s.world) && AttemptInv(s) && R.Enabled(s.world, step)
    ensures AttemptInv(Next(s, RunStep(step))) <==> KeepsAttempts(s, RunStep(step))
  {
    hide R.Inv, AttemptInv, R.Canonical, Begin, ReconcileLive, Close, Finalize, Describe, NormalizedTaskState,
         SetMeta, ClearMeta, MarkStatus, TrimSpace, CanMutate, Blank;
    R.InvFacts(s.world);
    assert !step.PrepareStep? ==> R.KnownRun(s.world, step.record.runID);
    var after := R.Next(s.world, step);
    match step {
      case PrepareStep(threadID, assistantID, runID, now) =>
        DispatchKeepsAttempts(s.world, after, s.log, PreparedRecord(threadID, assistantID, runID, now));
      case BeginStep(record, now) =>
        R.BeginTakes(s.world, record, now);
        R.BeginStatus(s.world, record, now);
        SaveKeepsAttempts(s.world, after, s.log, BegunRecord(s.world, record, now));
      case ReconcileStep(record) =>
        R.ReconcileTakes(s.world, record);
        SameRunsKeepAttempts(s.world, after, s.log);
      case _ =>
        FinishSaves(s.world, step);
        SaveKeepsAttempts(s.world, after, s.log, after.runs[step.record.runID]);
    }
  }

  lemma FinishSaves(w: World, step: R.Step)
    requires R.Inv(w) && R.Enabled(w, step) && R.IsFinish(step)
    ensures var after := R.Next(w, step);
      step.record.runID in after.runs && R.SameRun(after.runs[step.record.runID], step.record) &&
      after.runs == w.runs[step.record.runID := after.runs[step.record.runID]]
  {
    hide R.Inv, R.Next, R.OwnersExcept, CanMutate;
    R.FinishRespectsOwnership(w, step);
  }

  const START := State(R.EMPTY, [])

  function Run(steps: seq<Step>): State {
    if steps == [] then START else Next(Run(steps[..|steps| - 1]), steps[|steps| - 1])
  }

  /** Steps on records of saved runs that pass both callers' checks. */
  predicate Careful(s: State, step: Step) {
    Enabled(s, step) && KeepsAttempts(s, step) &&
    match step
    case ResumeStep(record, afterEvent, reason, _) => ResumesSavedRun(s.world, record, afterEvent, reason)
    case RunStep(step) => R.TakesForLiveRun(s.world, step)
  }

  predicate AllCareful(steps: seq<Step>) {
    forall i | 0 <= i < |steps| :: Careful(Run(steps[..i]), steps[i])
  }

  /** Over any careful run of prepares, begins, resumes and finishes on any number of runs, the
      attempts dispatched for a run strictly increase, so none is dispatched twice. */
  lemma {:induction false} AttemptsIncrease(steps: seq<Step>)
    requires AllCareful(steps)
    ensures Increasing(Run(steps).log)
    ensures R.Inv(Run(steps).world) && AttemptInv(Run(steps))
    decreases |steps|
  {
    hide R.Inv, Careful, Next, LogIsPast, SavedIsDispatched, Increasing;
    if steps == [] {
      StartInv();
    } else {
      var n := |steps| - 1;
      forall i | 0 <= i < n ensures Careful(Run(steps[..n][..i]), steps[..n][i]) {
        R.PrefixOf(steps, n, i);
      }
      AttemptsIncrease(steps[..n]);
      CarefulKeepsBoth(Run(steps[..n]), steps[n]);
    }
  }

  lemma StartInv()
    ensures R.Inv(START.world) && AttemptInv(START)
  {
  }

  lemma CarefulKeepsBoth(s: State, step: Step)
    requires R.Inv(s.world) && AttemptInv(s) && Careful(s, step)
    ensures R.Inv(Next(s, step).world) && AttemptInv(Next(s, step))
  {
    hide R.Inv, AttemptInv, KeepsAttempts, ResumesSavedRun, R.TakesForLiveRun, AfterResume, R.Next;
    StepKeepsAttempts(s, step);
    match step {
      case ResumeStep(record, afterEvent, reason, now) =>
        ResumeKeepsOwnership(s.world, record, afterEvent, reason, now);
      case RunStep(inner) => R.StepKeepsInv(s.world, inner);
    }
  }

  /** The caller's check is met by the saved record itself, and by the record saved just before
      the attempt that is now live. */
  lemma CurrentRecordsAreCareful(s: State, record: RunRecord, afterEvent: int, reason: string, now: int)
    requires Enabled(s, ResumeStep(record, afterEvent, reason, now)) && record.attempt >= 1
    requires var saved := s.world.runs[record.runID];
             record == saved || (record.attempt + 1 == saved.attempt && IsLive(saved.status))
    ensures Careful(s, ResumeStep(record, afterEvent, reason, now))
  {
    hide IsLive, IsRunning, CanMutate, TrimSpace;
    LiveIsRunning(s.world.runs[record.runID].status);
  }

  /** A client that repeats a resume, with the record it first used or the one it got back,
      starts nothing new. */
  lemma ResumeIsIdempotent(w: World, record: RunRecord, afterEvent: int, reason: string, now: int, later: int)
    requires R.Inv(w) && R.Persisted(w, record)
    requires AfterResume(w, record, afterEvent, reason, now).dispatched.Some?
    ensures var r := AfterResume(w, record, afterEvent, reason, now);
      && AfterResume(r.world, record, afterEvent, reason, later).dispatched.None?
      && AfterResume(r.world, r.record, afterEvent, reason, later).dispatched.None?
  {
    hide R.Inv, R.Canonical, AfterResume, IsLive, TrimSpace, IsRunning;
    var r := AfterResume(w, record, afterEvent, reason, now);
    ResumeDispatches(w, record, afterEvent, reason, now);
    ResumeKeepsOwnership(w, record, afterEvent, reason, now);
    ResumedRecord(w, record, afterEvent, reason, now);
    LiveIsRunning("running");
    ResumeDispatches(r.world, record, afterEvent, reason, later);
    ResumeDispatches(r.world, r.record, afterEvent, reason, later);
  }

  /** After a resume the record it gave back is live for that position and that reason only: asked
      for the same again it dispatches nothing, asked for anything else the next attempt. */
  lemma NextResume(w: World, record: RunRecord, afterEvent: int, reason: string, now: int, event: int,
                   other: string, later: int)
    requires R.Inv(w) && R.Persisted(w, record)
    requires AfterResume(w, record, afterEvent, reason, now).dispatched.Some?
    ensures var r := AfterResume(w, record, afterEvent, reason, now);
      AfterResume(r.world, r.record, event, other, later).dispatched ==
        if event == afterEvent && TrimSpace(other) == TrimSpace(reason) then None else Some(r.dispatched.value + 1)
  {
    hide R.Inv, R.Canonical, AfterResume, IsLive, TrimSpace, IsRunning;
    var r := AfterResume(w, record, afterEvent, reason, now);
    ResumeDispatches(w, record, afterEvent, reason, now);
    ResumeKeepsOwnership(w, record, afterEvent, reason, now);
    ResumedRecord(w, record, afterEvent, reason, now);
    ResumeDispatches(r.world, r.record, event, other, later);
  }

  /** A dispatched resume starts the attempt after the record's own, and never the first, from the
      asked position, for the trimmed reason, running and without an error. */
  lemma ResumedRun(w: World, record: RunRecord, afterEvent: int, reason: string, now: int)
    requires R.Inv(w) && R.Persisted(w, record)
    requires AfterResume(w, record, afterEvent, reason, now).dispatched.Some?
    ensures var r := AfterResume(w, record, afterEvent, reason, now);
      && r.dispatched.value == (if record.attempt >= 1 then record.attempt + 1 else 2)
      && r.record == record.(attempt := r.dispatched.value, status := "running", error := "", updatedAt := now,
                             resumeFromEvent := afterEvent, resumeReason := TrimSpace(reason),
                             outcome := r.record.outcome)
      && r.world.runs == w.runs[record.runID := r.record]
  {
    hide TrimSpace, DescribeLiveRunning, BindRecord, IsLive, IsRunning, Begin, ReconcileLive, CanReuse,
         ReconciledRecord, R.Inv, Q.FindRun, Blank, CanMutate, Describe, NormalizedTaskState, Idempotent;
    ResumeDispatches(w, record, afterEvent, reason, now);
    ResumedRecord(w, record, afterEvent, reason, now);
    R.InvFacts(w);
    assert R.KnownRun(w, record.runID);
    R.BeginTakes(w, NextRecord(w.threads, record, afterEvent, reason), now);
  }

  /** A resume that reuses the record in hand does not believe its old outcome: what it gives back
      reports the run as its thread has it. */
  lemma ReusedRecordIsRefreshed(w: World, record: RunRecord, afterEvent: int, reason: string, now: int)
    requires CanReuse(record, afterEvent, TrimSpace(reason)) && !Blank(record.runID)
    ensures var r := AfterResume(w, record, afterEvent, reason, now);
      && r.dispatched == None
      && r.record == record.(status := "running", error := "", resumeReason := TrimSpace(reason),
                             outcome := r.record.outcome)
      && P.ReportsLive(r.record.outcome, r.record, w.threads)
  {
    hide TrimSpace, DescribeLiveRunning, BindRecord, IsLive, IsRunning, ReconcileLive, P.ReportsLive;
    TrimSpaceFixed(reason);
    var next := NextRecord(w.threads, record, afterEvent, reason);
    var live := record.(resumeFromEvent := afterEvent, resumeReason := TrimSpace(reason), status := "running",
                        error := "");
    P.LiveRunningReports(live, w.threads);
    R.StatusWords();
    LiveStatus(live, w.threads);
    assert next == live.(outcome := DescribeLiveRunning(live, w.threads));
    BindBySamePosition(live, next, DescribeLiveRunning(live, w.threads));
    var saved := ReconciledRecord(w, next);
    assert saved.outcome == BindRecord(live, DescribeLiveRunning(live, w.threads));
    P.LiveAtSamePosition(saved.outcome, live, saved, w.threads);
  }

  lemma BindBySamePosition(a: RunRecord, b: RunRecord, d: O.Descriptor)
    requires a.attempt == b.attempt && a.resumeFromEvent == b.resumeFromEvent && a.resumeReason == b.resumeReason
    ensures BindRecord(a, d) == BindRecord(b, d)
  {
  }

  lemma LiveStatus(record: RunRecord, threads: map<string, Thread>)
    ensures DescribeLiveRunning(record, threads).runStatus == "running"
  {
    hide StoredTaskState, O.ParseLifecycle, O.PendingTexts, T.Missing;
  }

  lemma ResumedRecord(w: World, record: RunRecord, afterEvent: int, reason: string, now: int)
    requires R.Inv(w) && R.Persisted(w, record)
    requires AfterResume(w, record, afterEvent, reason, now).dispatched.Some?
    ensures var r := AfterResume(w, record, afterEvent, reason, now);
      && !CanReuse(record, afterEvent, TrimSpace(reason))
      && R.Persisted(r.world, record) && R.Persisted(r.world, r.record) && r.world.runs[record.runID] == r.record
      && r.record.runID == record.runID && r.record.attempt == r.dispatched.value && r.record.attempt > 0
      && CanReuse(r.record, afterEvent, TrimSpace(reason))
  {
    hide TrimSpace, DescribeLiveRunning, BindRecord, NextRecord, IsLive, IsRunning, Begin, ReconcileLive,
         ReconciledRecord, R.Inv, Q.FindRun, Blank, CanMutate, Describe, NormalizedTaskState;
    var next := NextRecord(w.threads, record, afterEvent, reason);
    NextRecordFields(w.threads, record, afterEvent, reason);
    PersistedIsFound(w, record);
    ResumeDispatches(w, record, afterEvent, reason, now);
    R.InvFacts(w);
    assert R.KnownRun(w, record.runID);
    R.BeginTakes(w, next, now);
    LiveIsRunning("running");
  }

  /** Without the check the property fails: the end of attempt k written after attempt k + 1 was
      dispatched takes the saved attempt back, and the next resume dispatches k + 1 again. */
  lemma StaleFinishRepeatsAttempt(w: World, stale: RunRecord, error: string, at: int, afterEvent: int, reason: string,
                                  now: int)
    requires R.Inv(w) && R.Persisted(w, stale) && stale.attempt >= 1
    requires w.runs[stale.runID].attempt == stale.attempt + 1
    ensures var after := MarkError(w, stale, error, at);
      stale.runID in after.runs &&
      AfterResume(after, after.runs[stale.runID], afterEvent, reason, now).dispatched ==
        Some(w.runs[stale.runID].attempt)
  {
    hide R.Inv, R.Canonical, AfterResume, IsLive, TrimSpace, Close, Describe, NormalizedTaskState, CanMutate;
    var step := R.ErrorStep(stale, error, at);
    FinishSaves(w, step);
    R.StepKeepsInv(w, step);
    var after := MarkError(w, stale, error, at);
    ErroredStatus(w, stale, error, at);
    ResumeDispatches(after, after.runs[stale.runID], afterEvent, reason, now);
  }

  lemma RunOfFour(a: Step, b: Step, c: Step, d: Step)
    ensures Run([a, b, c]) == Next(Next(Next(START, a), b), c)
    ensures Run([a, b, c, d]) == Next(Run([a, b, c]), d)
  {
    hide Next;
    var steps := [a, b, c, d];
    assert steps[..3] == [a, b, c] && [a, b, c][..2] == [a, b] && [a, b][..1] == [a] && [a][..0] == [];
    assert Run([a]) == Next(START, a);
    assert Run([a, b]) == Next(Run([a]), b);
  }

  /** It is reached: a run is prepared, resumed past its first event, and then the first attempt's
      failure is written late.  The next resume, of the record now saved, dispatches the second
      attempt's number again. */
  lemma StaleFinishIsReached(threadID: string, runID: string, error: string, afterEvent: int, reason: string)
    requires R.Canonical(threadID) && R.Canonical(runID) && afterEvent != 0
    ensures var first := PreparedRecord(threadID, "", runID, 1);
      var prepare := RunStep(R.PrepareStep(threadID, "", runID, 1));
      var resume, fail := ResumeStep(first, afterEvent, reason, 2), RunStep(R.ErrorStep(first, error, 3));
      var s1, s2, s3 := Next(START, prepare), Run([prepare, resume]), Run([prepare, resume, fail]);
      && Enabled(START, prepare) && Enabled(s1, resume) && s1.world.runs[runID] == first
      && Enabled(s2, fail)
      && runID in s3.world.runs
      && var again := ResumeStep(s3.world.runs[runID], afterEvent, reason, 4);
         && Enabled(s3, again)
         && Run([prepare, resume, fail, again]).log == [Dispatch(runID, 1), Dispatch(runID, 2), Dispatch(runID, 2)]
  {
    hide R.Inv, R.Canonical, AfterResume, IsLive, TrimSpace, MarkError, Prepare, Describe, Run, NormalizedTaskState,
         R.WellKeyed;
    var first := PreparedRecord(threadID, "", runID, 1);
    var prepare := RunStep(R.PrepareStep(threadID, "", runID, 1));
    var resume, fail := ResumeStep(first, afterEvent, reason, 2), RunStep(R.ErrorStep(first, error, 3));
    R.EmptyInv();
    R.PrepareKeepsInv(R.EMPTY, threadID, "", runID, 1);
    PreparedRuns(threadID, runID);
    var w1 := Prepare(R.EMPTY, threadID, "", runID, 1);
    ResumeDispatches(w1, first, afterEvent, reason, 2);
    var r := AfterResume(w1, first, afterEvent, reason, 2);
    ResumedRecord(w1, first, afterEvent, reason, 2);
    ResumeKeepsOwnership(w1, first, afterEvent, reason, 2);
    StaleFinishRepeatsAttempt(r.world, first, error, 3, afterEvent, reason, 4);
    FinishSaves(r.world, R.ErrorStep(first, error, 3));
    var w3 := MarkError(r.world, first, error, 3);
    var again := ResumeStep(w3.runs[runID], afterEvent, reason, 4);
    RunOfFour(prepare, resume, fail, again);
    RunOfTwo(prepare, resume);
  }

  lemma RunOfTwo(a: Step, b: Step)
    ensures Run([a, b]) == Next(Next(START, a), b)
  {
    hide Next;
    assert [a, b][..1] == [a] && [a][..0] == [];
    assert Run([a]) == Next(START, a);
  }

  lemma PreparedRuns(threadID: string, runID: string)
    ensures Prepare(R.EMPTY, threadID, "", runID, 1).runs == map[runID := PreparedRecord(threadID, "", runID, 1)]
  {
    hide SetMeta, ClearMeta, MarkStatus, Describe, Blank;
  }

  lemma ErroredStatus(w: World, record: RunRecord, error: string, now: int)
    ensures record.runID in MarkError(w, record, error, now).runs
    ensures !IsLive(MarkError(w, record, error, now).runs[record.runID].status)
  {
    hide TrimSpace, IsRunning, IsLive, CanMutate, Describe, NormalizedTaskState, ClearOwner, MarkStatus, SetLifecycle;
    R.StatusWords();
    LiveIsRunning("error");
  }
}
