/** Looking runs up: by ID, by thread, and the run a client joins when it names only a thread
    (pkg/harnessruntime/query_service.go, detached_cancel.go, inmemory_store.go). */
module RunQuery {
  import opened GoStrings
  import opened Wrappers
  import opened RunServices
  import S = RunState
  import R = RunOwnership

  type Records = map<string, S.RunRecord>

  /** `normalizeQueryRunRecord`. */
  function Bound(record: S.RunRecord): S.RunRecord {
    record.(outcome := S.BindRecord(record, record.outcome))
  }

  /** A record found is the stored one, with an outcome at the record's own attempt and position that
      takes missing task lists from its lifecycle. */
  lemma BoundKeeps(record: S.RunRecord)
    ensures var r, d := Bound(record), record.outcome;
      && r == record.(outcome := r.outcome)
      && r.outcome == d.(pendingTasks := r.outcome.pendingTasks, expectedArtifacts := r.outcome.expectedArtifacts,
                         attempt := record.attempt, resumeFromEvent := record.resumeFromEvent,
                         resumeReason := record.resumeReason)
      && r.outcome.pendingTasks == (if d.pendingTasks == [] then d.lifecycle.pendingTasks else d.pendingTasks)
      && r.outcome.expectedArtifacts ==
           (if d.expectedArtifacts == [] then d.lifecycle.expectedArtifacts else d.expectedArtifacts)
  {
  }

  predicate OnThread(record: S.RunRecord, threadID: string) {
    threadID == "" || record.threadID == threadID
  }

  /** `QueryService.Run`. */
  function FindRun(runs: Records, threadID: string, runID: string): Option<S.RunRecord> {
    var id := TrimSpace(runID);
    if id in runs && (threadID == "" || runs[id].threadID == TrimSpace(threadID)) then Some(Bound(runs[id])) else None
  }

  function RunsOf(runs: Records, threadID: string): set<string> {
    set id | id in runs && OnThread(runs[id], threadID)
  }

  /** A run is found by its trimmed ID alone when no thread is given, and otherwise on that thread
      only; a thread's runs are those that name it, and all of them when none is given. */
  lemma QueriesFind(runs: Records, threadID: string, runID: string)
    ensures FindRun(runs, threadID, runID).Some? <==>
            TrimSpace(runID) in runs &&
            (threadID != "" ==> runs[TrimSpace(runID)].threadID == TrimSpace(threadID))
    ensures FindRun(runs, threadID, runID).Some? ==>
            FindRun(runs, threadID, runID) == FindRun(runs, "", TrimSpace(runID))
    ensures runID in RunsOf(runs, threadID) <==>
            runID in runs && (|threadID| > 0 ==> runs[runID].threadID == threadID)
  {
    hide TrimSpace;
    TrimSpaceFixed(runID);
  }

  predicate NewestFirst(records: seq<S.RunRecord>) {
    forall i, j | 0 <= i < j < |records| :: records[j].createdAt <= records[i].createdAt
  }

  ghost predicate ListedAs(runs: Records, threadID: string, id: string, record: S.RunRecord) {
    id in RunsOf(runs, threadID) && record == Bound(runs[id])
  }

  /** The records of a thread's runs, newest first, one for each run. */
  ghost predicate Lists(runs: Records, threadID: string, records: seq<S.RunRecord>) {
    && |records| == |RunsOf(runs, threadID)|
    && (forall id | id in RunsOf(runs, threadID) :: Bound(runs[id]) in records)
    && (forall record | record in records :: exists id :: ListedAs(runs, threadID, id, record))
    && NewestFirst(records)
  }

  /** A stored run of the thread that is running. */
  predicate RunningOn(runs: Records, threadID: string, id: string) {
    id in runs && OnThread(runs[id], threadID) && S.IsRunning(runs[id].status)
  }

  /** `record` is the newest running run of the thread. */
  ghost predicate NewestRunning(runs: Records, threadID: string, record: S.RunRecord) {
    && S.IsRunning(record.status)
    && (exists id :: ListedAs(runs, threadID, id, record))
    && (forall id | RunningOn(runs, threadID, id) :: runs[id].createdAt <= record.createdAt)
  }

  lemma NothingToSort()
    ensures NewestFirst([])
  {
  }

  lemma InsertedAt(sorted: seq<S.RunRecord>, record: S.RunRecord, i: nat)
    requires NewestFirst(sorted) && i <= |sorted|
    requires forall j | 0 <= j < i :: record.createdAt <= sorted[j].createdAt
    requires i < |sorted| ==> sorted[i].createdAt < record.createdAt
    ensures NewestFirst(sorted[..i] + [record] + sorted[i..])
    ensures forall r :: r in sorted[..i] + [record] + sorted[i..] <==> r in sorted || r == record
  {
    assert sorted == sorted[..i] + sorted[i..];
  }

  /** The library sort the listing relies on. */
  method SortNewestFirst(records: seq<S.RunRecord>) returns (sorted: seq<S.RunRecord>)
    ensures NewestFirst(sorted) && |sorted| == |records|
    ensures forall record :: record in sorted <==> record in records
  {
    hide NewestFirst;
    sorted := [];
    NothingToSort();
    for n := 0 to |records|
      invariant NewestFirst(sorted) && |sorted| == n
      invariant forall record :: record in sorted <==> record in records[..n]
    {
      var record := records[n];
      var i := 0;
      while i < |sorted| && record.createdAt <= sorted[i].createdAt
        invariant i <= |sorted|
        invariant forall j | 0 <= j < i :: record.createdAt <= sorted[j].createdAt
      {
        i := i + 1;
      }
      InsertedAt(sorted, record, i);
      sorted := sorted[..i] + [record] + sorted[i..];
      assert records[..n + 1] == records[..n] + [record];
    }
    assert records[..|records|] == records;
  }

  /** `records` holds the bound record of each run in `done`, and nothing else. */
  ghost predicate Collected(runs: Records, threadID: string, done: set<string>, records: seq<S.RunRecord>) {
    && |records| == |done|
    && (forall id | id in done :: id in runs && Bound(runs[id]) in records)
    && (forall record | record in records :: exists id :: ListedAs(runs, threadID, id, record))
  }

  lemma CollectedStep(runs: Records, threadID: string, done: set<string>, records: seq<S.RunRecord>, id: string)
    requires Collected(runs, threadID, done, records) && id !in done && id in RunsOf(runs, threadID)
    ensures Collected(runs, threadID, done + {id}, records + [Bound(runs[id])])
  {
    hide Bound;
    var record := Bound(runs[id]);
    assert ListedAs(runs, threadID, id, record);
    var after := records + [record];
    assert after[|records|] == record;
    forall k | k in done ensures Bound(runs[k]) in after {
      var i :| 0 <= i < |records| && records[i] == Bound(runs[k]);
      assert after[i] == records[i];
    }
  }

  /** The bound records of a thread's snapshots, in no particular order. */
  method ListRunRecords(snapshots: map<string, RunSnapshot>, threadID: string) returns (records: seq<S.RunRecord>)
    ensures Collected(RecordsOf(snapshots), threadID, RunsOf(RecordsOf(snapshots), threadID), records)
  {
    hide Bound, Collected, ListedAs;
    ghost var runs := RecordsOf(snapshots);
    var todo := set id | id in snapshots && OnThread(snapshots[id].record, threadID);
    assert todo == RunsOf(runs, threadID);
    records := [];
    ghost var done: set<string> := {};
    NothingCollected(runs, threadID);
    while todo != {}
      invariant todo !! done && todo + done == RunsOf(runs, threadID)
      invariant Collected(runs, threadID, done, records)
      decreases |todo|
    {
      var id :| id in todo;
      assert runs[id] == snapshots[id].record;
      CollectedStep(runs, threadID, done, records, id);
      records := records + [Bound(snapshots[id].record)];
      todo, done := todo - {id}, done + {id};
    }
    assert done == RunsOf(runs, threadID);
  }

  lemma NothingCollected(runs: Records, threadID: string)
    ensures Collected(runs, threadID, {}, [])
  {
  }

  /** Where a thread's run stands in a listing. */
  lemma ListedAt(runs: Records, threadID: string, records: seq<S.RunRecord>, id: string) returns (i: nat)
    requires Lists(runs, threadID, records) && id in RunsOf(runs, threadID)
    ensures i < |records| && records[i].status == runs[id].status && records[i].createdAt == runs[id].createdAt
  {
    i :| 0 <= i < |records| && records[i] == Bound(runs[id]);
  }

  lemma FirstIsNewest(runs: Records, threadID: string, records: seq<S.RunRecord>)
    requires Lists(runs, threadID, records) && |records| > 0
    ensures exists id :: ListedAs(runs, threadID, id, records[0])
    ensures forall id | id in RunsOf(runs, threadID) :: runs[id].createdAt <= records[0].createdAt
  {
    hide Bound;
    assert records[0] in records;
    forall id | id in RunsOf(runs, threadID) ensures runs[id].createdAt <= records[0].createdAt {
      var i := ListedAt(runs, threadID, records, id);
    }
  }

  lemma FirstRunningIsNewest(runs: Records, threadID: string, records: seq<S.RunRecord>, k: nat)
    requires Lists(runs, threadID, records) && k < |records|
    requires S.IsRunning(records[k].status) && forall j | 0 <= j < k :: !S.IsRunning(records[j].status)
    ensures NewestRunning(runs, threadID, records[k])
    ensures exists id :: RunningOn(runs, threadID, id)
  {
    hide S.IsRunning, S.BindRecord;
    assert records[k] in records;
    var owner :| ListedAs(runs, threadID, owner, records[k]);
    assert RunningOn(runs, threadID, owner);
    forall id | RunningOn(runs, threadID, id) ensures runs[id].createdAt <= records[k].createdAt {
      assert id in RunsOf(runs, threadID);
      var j := ListedAt(runs, threadID, records, id);
    }
  }

  lemma NoneRunning(runs: Records, threadID: string, records: seq<S.RunRecord>)
    requires Lists(runs, threadID, records)
    requires forall j | 0 <= j < |records| :: !S.IsRunning(records[j].status)
    ensures forall id :: !RunningOn(runs, threadID, id)
  {
    hide S.IsRunning, Bound;
    forall id | id in RunsOf(runs, threadID) ensures !S.IsRunning(runs[id].status) {
      var j := ListedAt(runs, threadID, records, id);
    }
    forall id ensures !RunningOn(runs, threadID, id) {
      assert RunningOn(runs, threadID, id) ==> id in RunsOf(runs, threadID);
    }
  }

  datatype JoinSelection = JoinSelection(run: Option<S.RunRecord>, threadFound: bool)

  class QueryService {
    const runs: InMemoryRunStore
    const threads: S.InMemoryThreadStateStore

    constructor (runs: InMemoryRunStore, threads: S.InMemoryThreadStateStore)
      ensures this.runs == runs && this.threads == threads
    {
      this.runs := runs;
      this.threads := threads;
    }

    method Run(threadID: string, runID: string) returns (record: Option<S.RunRecord>)
      ensures record == FindRun(runs.Records(), threadID, runID)
    {
      var loaded := runs.LoadRunSnapshot(TrimSpace(runID));
      if loaded.None? {
        return None;
      }
      var found := loaded.value.record;
      if threadID != "" && found.threadID != TrimSpace(threadID) {
        return None;
      }
      return Some(Bound(found));
    }

    /** The store lists its snapshots in no particular order; the service sorts them. */
    method ListThreadRuns(threadID: string) returns (records: seq<S.RunRecord>)
      ensures Lists(runs.Records(), TrimSpace(threadID), records)
    {
      hide TrimSpace, ListedAs, RunsOf, RecordsOf, Bound;
      var found := ListRunRecords(runs.snapshots, TrimSpace(threadID));
      records := SortNewestFirst(found);
    }

    method LatestRun(threadID: string) returns (record: Option<S.RunRecord>)
      ensures record.None? <==> RunsOf(runs.Records(), TrimSpace(threadID)) == {}
      ensures record.Some? ==> exists id :: ListedAs(runs.Records(), TrimSpace(threadID), id, record.value)
      ensures record.Some? ==>
        forall id | id in RunsOf(runs.Records(), TrimSpace(threadID)) ::
          runs.Records()[id].createdAt <= record.value.createdAt
    {
      hide TrimSpace, ListedAs, RunsOf, RecordsOf;
      var records := ListThreadRuns(threadID);
      if |records| == 0 {
        return None;
      }
      FirstIsNewest(runs.Records(), TrimSpace(threadID), records);
      return Some(records[0]);
    }

    method LatestActiveRun(threadID: string) returns (record: Option<S.RunRecord>)
      ensures record.None? <==> forall id :: !RunningOn(runs.Records(), TrimSpace(threadID), id)
      ensures record.Some? ==> NewestRunning(runs.Records(), TrimSpace(threadID), record.value)
    {
      hide TrimSpace, S.IsRunning, ListedAs, RunsOf, RecordsOf, Lists, RunningOn, NewestRunning;
      var records := ListThreadRuns(threadID);
      ghost var stored, thread := runs.Records(), TrimSpace(threadID);
      for i := 0 to |records|
        invariant forall j | 0 <= j < i :: !S.IsRunning(records[j].status)
      {
        if S.IsRunning(records[i].status) {
          FirstRunningIsNewest(stored, thread, records, i);
          return Some(records[i]);
        }
      }
      NoneRunning(stored, thread, records);
      return None;
    }

    /** The run a client joins on a thread.  `known` says whether anything else knows the thread.
        With a thread state there is a run to join exactly when some stored run of the thread is
        running, whatever the state's `active_run_id` says: a live owner first, the newest
        running run otherwise. */
    method SelectJoinRun(rawThreadID: string, known: bool) returns (join: JoinSelection)
      ensures var runs, threadID := runs.Records(), TrimSpace(rawThreadID);
        && (join.run.None? ==> forall id :: !RunningOn(runs, threadID, id))
        && (join.run.Some? && (threadID in threads.states || known) ==>
              S.IsRunning(join.run.value.status) && exists id :: ListedAs(runs, threadID, id, join.run.value))
        && (join.run.Some? ==>
              var active := FindRun(runs, threadID, S.ActiveOf(threads.states, threadID));
              if S.ActiveOf(threads.states, threadID) != "" && active.Some? && S.IsRunning(active.value.status)
              then join.run == active
              else (forall id :: !RunningOn(runs, threadID, id)) || NewestRunning(runs, threadID, join.run.value))
        && (threadID !in threads.states && !known ==> (join.run.None? <==> RunsOf(runs, threadID) == {}))
        && (join.threadFound <==> threadID in threads.states || known || join.run.Some?)
    {
      hide TrimSpace, S.BindRecord, S.IsRunning, S.Active;
      var threadID := TrimSpace(rawThreadID);
      TrimSpaceFixed(rawThreadID);
      ghost var stored := runs.Records();
      var state, found := threads.LoadThreadRuntimeState(threadID);
      if found && S.Active(state) != "" {
        var owner := Run(threadID, S.Active(state));
        if owner.Some? && S.IsRunning(owner.value.status) {
          assert ListedAs(stored, threadID, TrimSpace(S.Active(state)), owner.value);
          assert RunningOn(stored, threadID, TrimSpace(S.Active(state)));
          return JoinSelection(owner, true);
        }
      }
      var active := LatestActiveRun(threadID);
      if active.Some? {
        ghost var id :| ListedAs(stored, threadID, id, active.value);
        assert RunningOn(stored, threadID, id);
        return JoinSelection(active, true);
      }
      if !found && !known {
        var latest := LatestRun(threadID);
        return JoinSelection(latest, latest.Some?);
      }
      return JoinSelection(None, true);
    }
  }

  // ---- cancelling a run whose worker has gone quiet ---------------------------------------

  datatype CancelAttempt = CancelAttempt(staleBefore: int, now: int)

  /** A run's record after a series of attempts with no save in between, and how many succeeded. */
  function CancelRepeatedly(record: S.RunRecord, attempts: seq<CancelAttempt>): (S.RunRecord, nat)
    decreases |attempts|
  {
    if attempts == [] then (record, 0)
    else
      var a := attempts[0];
      if IsStale(record, a.staleBefore) then
        var (last, n) := CancelRepeatedly(DetachedCancel(record, a.now), attempts[1..]);
        (last, n + 1)
      else CancelRepeatedly(record, attempts[1..])
  }

  lemma CanceledIsNotStale(record: S.RunRecord, now: int, staleBefore: int)
    ensures !IsStale(DetachedCancel(record, now), staleBefore)
  {
    hide S.IsRunning, S.BindRecord, TrimSpace;
    R.StatusWords();
  }

  /** At most one attempt succeeds: exactly one when some attempt finds the run stale, and then
      the record carries that attempt's cancellation. */
  lemma {:induction false} CancelsAtMostOnce(record: S.RunRecord, attempts: seq<CancelAttempt>)
    ensures var stale := exists i :: 0 <= i < |attempts| && IsStale(record, attempts[i].staleBefore);
            && CancelRepeatedly(record, attempts).1 == (if stale then 1 else 0)
            && (!stale ==> CancelRepeatedly(record, attempts).0 == record)
            && (stale ==> !S.IsRunning(CancelRepeatedly(record, attempts).0.status))
    decreases |attempts|
  {
    hide IsStale, DetachedCancel;
    if attempts != [] {
      var a := attempts[0];
      if IsStale(record, a.staleBefore) {
        var canceled := DetachedCancel(record, a.now);
        forall i | 0 <= i < |attempts[1..]| ensures !IsStale(canceled, attempts[1..][i].staleBefore) {
          CanceledIsNotStale(record, a.now, attempts[1..][i].staleBefore);
        }
        CancelsAtMostOnce(canceled, attempts[1..]);
        CanceledStatus(record, a.now);
      } else {
        CancelsAtMostOnce(record, attempts[1..]);
        assert forall i | 0 <= i < |attempts| - 1 :: attempts[1..][i] == attempts[i + 1];
        assert forall i | 1 <= i < |attempts| :: attempts[i] == attempts[1..][i - 1];
      }
    }
  }

  lemma CanceledStatus(record: S.RunRecord, now: int)
    ensures !S.IsRunning(DetachedCancel(record, now).status)
  {
    hide S.IsRunning, S.BindRecord, TrimSpace;
    R.StatusWords();
  }

  /** A running run last saved by a begin at `at` is cancelled by a limit exactly when it was begun
      no later than that; so beginning it later protects it from the limit. */
  lemma QuietRunIsCanceled(w: S.World, record: S.RunRecord, at: int, runs: Records, staleBefore: int, now: int)
    requires !Blank(record.runID) && S.IsRunning(record.status) && record.runID in S.Begin(w, record, at).runs
    requires record.runID in runs && runs[record.runID] == S.Begin(w, record, at).runs[record.runID]
    requires at > 0 && staleBefore > 0
    ensures TryCancel(runs, record.runID, staleBefore, now).Some? <==> at <= staleBefore
  {
    hide S.IsRunning, TrimSpace, DetachedCancel, S.NormalizedTaskState, S.MarkStatus, S.SetMeta, S.Describe;
    R.StatusWords();
    R.BeginStatus(w, record, at);
  }

  /** The same for a run last saved when it was prepared. */
  lemma QuietPreparedRunIsCanceled(w: S.World, threadID: string, assistantID: string, runID: string, at: int,
                                   runs: Records, staleBefore: int, now: int)
    requires !Blank(runID) && runID in S.Prepare(w, threadID, assistantID, runID, at).runs
    requires runID in runs && runs[runID] == S.Prepare(w, threadID, assistantID, runID, at).runs[runID]
    requires at > 0 && staleBefore > 0
    ensures TryCancel(runs, runID, staleBefore, now).Some? <==> at <= staleBefore
  {
    hide S.IsRunning, TrimSpace, DetachedCancel, S.MarkStatus, S.SetMeta, S.ClearMeta, S.Describe;
    R.StatusWords();
  }

  /** No limit cancels every running run that has an ID; a limit cancels none that was never
      updated; what one limit cancels a later one cancels; and no other run is ever cancelled. */
  lemma LimitsCancel(runs: Records, runID: string, staleBefore: int, later: int, now: int)
    requires runID in runs
    ensures TryCancel(runs, runID, 0, now).Some? <==>
            TrimSpace(runs[runID].runID) != "" && S.IsRunning(runs[runID].status)
    ensures staleBefore != 0 && runs[runID].updatedAt == 0 ==> TryCancel(runs, runID, staleBefore, now).None?
    ensures 0 < staleBefore <= later && TryCancel(runs, runID, staleBefore, now).Some? ==>
            TryCancel(runs, runID, later, now).Some?
    ensures TryCancel(runs, runID, staleBefore, now).Some? ==> TryCancel(runs, runID, 0, now).Some?
  {
    hide S.IsRunning, TrimSpace, DetachedCancel;
  }

  /** A cancelled run is the same run at the same attempt, interrupted, without an error, updated
      now, and its outcome says so. */
  lemma CanceledRun(runs: Records, runID: string, staleBefore: int, now: int)
    requires TryCancel(runs, runID, staleBefore, now).Some?
    ensures var before, after := runs[runID], TryCancel(runs, runID, staleBefore, now).value;
      && after == before.(status := "interrupted", error := "", updatedAt := now, outcome := after.outcome)
      && after.outcome.runStatus == "interrupted" && after.outcome.interrupted && after.outcome.error == ""
      && after.outcome.attempt == before.attempt && after.outcome.resumeFromEvent == before.resumeFromEvent
      && after.outcome.resumeReason == before.resumeReason
      && after.outcome.lifecycle.IsZero() && after.outcome.taskState.IsZero()
  {
    hide S.IsRunning, TrimSpace;
  }

  /** A detached cancel of a thread's owner leaves the dead run named in `active_run_id`, so the
      ownership invariant is exactly what such a cancel gives up. */
  lemma DetachedCancelLeavesDeadOwner(w: S.World, runID: string, now: int)
    requires R.Inv(w) && runID in w.runs
    ensures var after := w.(runs := w.runs[runID := DetachedCancel(w.runs[runID], now)]);
            R.Inv(after) <==> S.ActiveOf(w.threads, w.runs[runID].threadID) != runID
  {
    hide S.IsRunning, S.BindRecord, TrimSpace, S.ActiveOf, R.WellKeyed, R.Canonical;
    R.InvFacts(w);
    assert R.KnownRun(w, runID);
    CanceledStatus(w.runs[runID], now);
    var after := w.(runs := w.runs[runID := DetachedCancel(w.runs[runID], now)]);
    var thread := w.runs[runID].threadID;
    assert runID != "" by { CanonicalIsNotEmpty(runID); }
    forall id | id in after.runs ensures R.KnownRun(after, id) {
      assert R.KnownRun(w, id);
    }
    forall id ensures R.OwnerIsLive(after, id) <==> S.ActiveOf(w.threads, id) != runID {
      assert R.OwnerIsLive(w, id);
    }
    if S.ActiveOf(w.threads, thread) != runID {
      forall id ensures R.OwnerIsLive(after, id) {
        assert R.OwnerIsLive(w, id);
      }
    } else {
      assert !R.OwnerIsLive(after, thread);
    }
  }

  lemma CanonicalIsNotEmpty(id: string)
    requires R.Canonical(id)
    ensures id != ""
  {
  }
}
