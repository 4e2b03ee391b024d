/** Following a run's tasks while it works: each task event updates one item of the thread's
    stored task state (pkg/harnessruntime/task_lifecycle.go, task_state.go). */
module TaskProgress {
  import opened GoStrings
  import opened RunState
  import opened RunOwnership
  import opened RunCompletion
  import opened Wrappers
  import T = TaskState
  import O = Outcomes

  /** `upsertTaskStateItem`; an update that does not normalise changes nothing. */
  function Upsert(state: T.TaskState, id: string, text: string, status: string): T.TaskState {
    var item := T.TaskItem(Collapse(id), Collapse(text), T.NormalizeTaskStatus(status));
    if item.text == "" || item.status == "" then state
    else
      match T.Normalized(T.TaskState(UpsertItem(state.items, item), state.expectedOutputs, state.verifiedOutputs))
      case Ok(normalized) => normalized
      case Err(_) => state
  }

  datatype TaskEvent = TaskEvent(kind: string, taskID: string, description: string)

  /** The status a kind of event gives its task; other kinds are not followed. */
  function StatusFor(kind: string): Option<string> {
    var word := TrimSpace(kind);
    if word == "task_started" || word == "task_running" then Some(T.IN_PROGRESS)
    else if word == "task_completed" then Some(T.COMPLETED)
    else if word == "task_failed" || word == "task_timed_out" then Some(T.PENDING)
    else None
  }

  function UpsertEvent(state: T.TaskState, e: TaskEvent, status: string): T.TaskState {
    Upsert(state, Collapse(e.taskID), Collapse(e.description), status)
  }

  function RunningLifecycle(state: T.TaskState): O.TaskLifecycle {
    O.DescribeLifecycle(O.RunOutcome(false, "running"), state, false)
  }

  function Stored(threads: map<string, Thread>, id: string, state: T.TaskState): map<string, Thread> {
    var shown := SetMeta(threads, id, LifecycleKey, O.LifecycleValue(RunningLifecycle(state)));
    if state.IsZero() then ClearMeta(shown, id, TaskStateKey) else SetMeta(shown, id, TaskStateKey, T.Value(state))
  }

  function Observed(threads: map<string, Thread>, threadID: string, e: TaskEvent): map<string, Thread> {
    if threadID == "" then threads
    else
      match StatusFor(e.kind)
      case None => threads
      case Some(status) => Stored(threads, threadID, UpsertEvent(StoredTaskState(threads, threadID), e, status))
  }

  function Updated(item: T.TaskItem, update: T.TaskItem): T.TaskItem {
    item.(status := update.status, id := if item.id == "" then update.id else item.id)
  }

  lemma {:induction false} UpsertAt(items: seq<T.TaskItem>, i: nat, update: T.TaskItem)
    requires i <= |items| && forall j | 0 <= j < i :: TaskItemKey(items[j]) != TaskItemKey(update)
    requires i < |items| ==> TaskItemKey(items[i]) == TaskItemKey(update)
    ensures UpsertItem(items, update) == if i < |items| then items[i := Updated(items[i], update)] else items + [update]
    decreases i
  {
    hide TaskItemKey;
    if i > 0 {
      UpsertAt(items[1..], i - 1, update);
      assert items == [items[0]] + items[1..];
    } else if items != [] {
      assert items[0 := Updated(items[0], update)] == [Updated(items[0], update)] + items[1..];
    }
  }

  /** The loop of `upsertTaskStateItem` over a copy of the items. */
  method UpsertInto(items: seq<T.TaskItem>, update: T.TaskItem) returns (out: seq<T.TaskItem>)
    ensures out == UpsertItem(items, update)
  {
    hide TaskItemKey, UpsertItem;
    out := items;
    for i := 0 to |items|
      invariant out == items
      invariant forall j | 0 <= j < i :: TaskItemKey(items[j]) != TaskItemKey(update)
    {
      if TaskItemKey(out[i]) == TaskItemKey(update) {
        UpsertAt(items, i, update);
        out := out[i := out[i].(status := update.status)];
        if out[i].id == "" {
          out := out[i := out[i].(id := update.id)];
        }
        return;
      }
    }
    UpsertAt(items, |items|, update);
    out := out + [update];
  }

  class ThreadTaskLifecycleTracker {
    const store: InMemoryThreadStateStore
    const threadID: string

    constructor (store: InMemoryThreadStateStore, threadID: string)
      ensures this.store == store && this.threadID == TrimSpace(threadID)
    {
      this.store, this.threadID := store, TrimSpace(threadID);
    }

    method Observe(e: TaskEvent)
      modifies store
      ensures store.states == Observed(old(store.states), threadID, e)
    {
      hide StatusFor, Collapse, TrimSpace, SetMeta, ClearMeta, UpsertItem, T.Value, O.LifecycleValue,
           T.ParseTaskState, T.NormalizeTaskStatus, T.Normalized;
      if threadID == "" {
        return;
      }
      var thread, _ := store.LoadThreadRuntimeState(threadID);
      var parsed := T.ParseTaskState(MetaValue(thread, TaskStateKey));
      var taskState := match parsed case Some(state) => state case None => T.ZERO;
      var taskID, description := Collapse(e.taskID), Collapse(e.description);
      var status := StatusFor(e.kind);
      if status == None {
        return;
      }
      var item := T.TaskItem(Collapse(taskID), Collapse(description), T.NormalizeTaskStatus(status.value));
      if item.text != "" && item.status != "" {
        var items := UpsertInto(taskState.items, item);
        var normalized :=
          T.NormalizeTaskState(T.TaskState(items, taskState.expectedOutputs, taskState.verifiedOutputs));
        if normalized.Ok? {
          taskState := normalized.value;
        }
      }
      store.SetThreadMetadata(threadID, LifecycleKey, O.LifecycleValue(RunningLifecycle(taskState)));
      if taskState.IsZero() {
        store.ClearThreadMetadata(threadID, TaskStateKey);
      } else {
        store.SetThreadMetadata(threadID, TaskStateKey, T.Value(taskState));
      }
    }
  }

  // ---- updating twice is updating once ------------------------------------------------------

  lemma KeyOfUpdated(item: T.TaskItem, update: T.TaskItem)
    requires TaskItemKey(item) == TaskItemKey(update)
    ensures var changed := item.(status := update.status, id := if item.id == "" then update.id else item.id);
            TaskItemKey(changed) == TaskItemKey(update)
  {
    if item.id == "" {
      EmptyCollapses();
      assert TaskItemKey(item)[0] == 't';
      assert ("id:" + Collapse(update.id))[0] == 'i';
    }
  }

  lemma EmptyCollapses()
    ensures Collapse("") == ""
  {
    assert TrimSpace("") == "" by { TrimSpaceFixed(""); }
  }

  predicate SameTask(item: T.TaskItem, update: T.TaskItem) {
    TaskItemKey(item) == TaskItemKey(update) && item.status == update.status
  }

  /** Some item has the update's key and status. */
  predicate Shows(items: seq<T.TaskItem>, update: T.TaskItem) {
    exists item :: item in items && SameTask(item, update)
  }

  lemma {:induction false} UpsertItemTwice(items: seq<T.TaskItem>, update: T.TaskItem)
    ensures UpsertItem(UpsertItem(items, update), update) == UpsertItem(items, update)
    ensures Shows(UpsertItem(items, update), update)
  {
    hide TaskItemKey;
    if items == [] {
      assert update in [update];
    } else {
      if TaskItemKey(items[0]) == TaskItemKey(update) {
        KeyOfUpdated(items[0], update);
        assert UpsertItem(items, update)[0] in UpsertItem(items, update);
        assert UpsertItem(items, update)[1..] == items[1..];
      } else {
        UpsertItemTwice(items[1..], update);
        assert UpsertItem(items, update)[1..] == UpsertItem(items[1..], update);
        var item :| item in UpsertItem(items[1..], update) && SameTask(item, update);
        assert item in UpsertItem(items, update);
      }
    }
  }

  lemma {:induction false} UpsertItemNormal(items: seq<T.TaskItem>, update: T.TaskItem)
    requires T.NormalItem(update) && forall item | item in items :: T.NormalItem(item)
    ensures forall item | item in UpsertItem(items, update) :: T.NormalItem(item)
  {
    hide TaskItemKey, T.NormalText, T.IsStatus;
    if items != [] {
      assert items[0] in items;
      forall item | item in items[1..] ensures T.NormalItem(item) {
        assert item in items;
      }
      UpsertItemNormal(items[1..], update);
    }
  }

  lemma UpdateIsNormal(id: string, text: string, status: string)
    requires Collapse(text) != "" && T.NormalizeTaskStatus(status) != ""
    ensures T.NormalItem(T.TaskItem(Collapse(id), Collapse(text), T.NormalizeTaskStatus(status)))
  {
    hide Collapse, T.NormalizeTaskStatus;
    CollapseIdempotent(id);
    CollapseIdempotent(text);
    NormalizedStatusIsOne(status);
  }

  lemma NormalizedStatusIsOne(status: string)
    ensures T.NormalizeTaskStatus(status) == "" || T.IsStatus(T.NormalizeTaskStatus(status))
  {
    hide TrimSpace, ToLower;
  }

  /** Item `j` is the one an update goes to: the first with the update's key. */
  predicate Targets(items: seq<T.TaskItem>, update: T.TaskItem, j: nat)
    requires j < |items|
  {
    TaskItemKey(items[j]) == TaskItemKey(update) && forall i | 0 <= i < j ::
      TaskItemKey(items[i]) != TaskItemKey(update)
  }

  predicate InProgressElsewhere(items: seq<T.TaskItem>, update: T.TaskItem) {
    exists j | 0 <= j < |items| :: items[j].status == T.IN_PROGRESS && !Targets(items, update, j)
  }

  /** An update is refused when it has no text or no known status, or when it would be the second
      item in progress. */
  predicate Refused(state: T.TaskState, update: T.TaskItem) {
    update.text == "" || update.status == "" ||
    (update.status == T.IN_PROGRESS && InProgressElsewhere(state.items, update))
  }

  predicate OneInProgress(items: seq<T.TaskItem>) {
    forall i, j | 0 <= i < j < |items| :: items[i].status != T.IN_PROGRESS || items[j].status != T.IN_PROGRESS
  }

  lemma {:induction false} FirstMatch(items: seq<T.TaskItem>, update: T.TaskItem) returns (i: nat)
    ensures i <= |items| && forall j | 0 <= j < i :: TaskItemKey(items[j]) != TaskItemKey(update)
    ensures i < |items| ==> TaskItemKey(items[i]) == TaskItemKey(update)
  {
    hide TaskItemKey;
    if items == [] || TaskItemKey(items[0]) == TaskItemKey(update) {
      i := 0;
    } else {
      var k := FirstMatch(items[1..], update);
      i := k + 1;
    }
  }

  /** With at most one item in progress before, there is at most one after the update exactly when
      the update does not start a second one. */
  lemma UpdateStartsASecond(items: seq<T.TaskItem>, update: T.TaskItem)
    requires OneInProgress(items)
    ensures OneInProgress(UpsertItem(items, update)) <==>
            !(update.status == T.IN_PROGRESS && InProgressElsewhere(items, update))
  {
    hide TaskItemKey, UpsertItem;
    var i := FirstMatch(items, update);
    UpsertAt(items, i, update);
    var after := UpsertItem(items, update);
    assert after[i].status == update.status && forall j | 0 <= j < |items| && j != i :: after[j] == items[j];
    assert forall j | 0 <= j < |items| :: Targets(items, update, j) <==> j == i;
    if update.status == T.IN_PROGRESS && InProgressElsewhere(items, update) {
      var j :| 0 <= j < |items| && items[j].status == T.IN_PROGRESS && !Targets(items, update, j);
      assert after[j].status == T.IN_PROGRESS && after[i].status == T.IN_PROGRESS;
    }
  }

  lemma NormalItemsNormalize(state: T.TaskState)
    requires forall item | item in state.items :: T.NormalItem(item)
    ensures T.Normalized(state).Ok? <==> OneInProgress(state.items)
  {
    hide T.NormalItem, T.NormalizedItem, T.ItemError, T.Normalized, T.NormalForm;
    T.NormalizeIntoNormalForm(state);
    forall item | item in state.items ensures T.NormalizedItem(item) == item && T.ItemError(item) == None {
      T.NormalItemIsFixed(item);
    }
  }

  /** An update of a normal form that is refused changes nothing; any other one changes only its
      own item, or appends it, and shows. */
  lemma UpsertRefusesExactly(state: T.TaskState, id: string, text: string, status: string)
    requires T.NormalForm(state)
    ensures var update := T.TaskItem(Collapse(id), Collapse(text), T.NormalizeTaskStatus(status));
      var after := Upsert(state, id, text, status);
      && (Refused(state, update) ==> after == state)
      && (!Refused(state, update) ==>
            after == state.(items := UpsertItem(state.items, update)) && Shows(after.items, update))
  {
    hide Collapse, T.NormalizeTaskStatus, T.NormalItem, T.NormalizedItems, T.Normalized, T.NormalStrings, UpsertItem,
         Shows, InProgressElsewhere;
    var update := T.TaskItem(Collapse(id), Collapse(text), T.NormalizeTaskStatus(status));
    if update.text != "" && update.status != "" {
      UpdateIsNormal(id, text, status);
      var updated := T.TaskState(UpsertItem(state.items, update), state.expectedOutputs, state.verifiedOutputs);
      UpsertItemNormal(state.items, update);
      NormalItemsNormalize(updated);
      UpdateStartsASecond(state.items, update);
      UpdatedNormalizesToItself(state, updated, update);
      UpsertItemTwice(state.items, update);
    }
  }

  /** The normal form survives an update, and the same update again changes nothing. */
  lemma UpsertIsIdempotent(state: T.TaskState, id: string, text: string, status: string)
    requires T.NormalForm(state)
    ensures T.NormalForm(Upsert(state, id, text, status))
    ensures Upsert(Upsert(state, id, text, status), id, text, status) == Upsert(state, id, text, status)
  {
    hide Collapse, T.NormalizeTaskStatus, T.NormalizedItems, T.NormalizedStrings, T.NormalForm, T.Normalized,
         UpsertItem;
    var item := T.TaskItem(Collapse(id), Collapse(text), T.NormalizeTaskStatus(status));
    if item.text != "" && item.status != "" {
      UpdateIsNormal(id, text, status);
      var updated := T.TaskState(UpsertItem(state.items, item), state.expectedOutputs, state.verifiedOutputs);
      UpdatedNormalizesToItself(state, updated, item);
      UpsertItemTwice(state.items, item);
      T.NormalFormIsFixed(updated);
    }
  }

  /** Items of a normal form with one of them updated: normalising either refuses them or leaves
      them as they are. */
  lemma UpdatedNormalizesToItself(state: T.TaskState, updated: T.TaskState, item: T.TaskItem)
    requires T.NormalForm(state) && T.NormalItem(item)
    requires updated == T.TaskState(UpsertItem(state.items, item), state.expectedOutputs, state.verifiedOutputs)
    ensures T.Normalized(updated).Ok? ==> T.Normalized(updated) == Ok(updated) && T.NormalForm(updated)
  {
    hide UpsertItem, T.NormalItem, T.NormalizedItem, T.ItemError, T.NormalizedItems, T.NormalizedStrings,
         T.NormalStrings;
    UpsertItemNormal(state.items, item);
    if T.Normalized(updated).Ok? {
      T.NormalItemsAreFixed(updated.items);
      T.NormalStringsAreFixed(updated.expectedOutputs);
      T.NormalStringsAreFixed(updated.verifiedOutputs);
      T.NormalFormIsFixed(updated);
    }
  }

  // ---- the stored state ---------------------------------------------------------------------

  lemma ParsedIsNormal(raw: T.Any)
    ensures T.ParseTaskState(raw).Some? ==> T.NormalForm(T.ParseTaskState(raw).value)
  {
    hide T.Normalized, T.NormalForm, T.ItemsFromAny, T.StringsFromAny;
    if T.IsObject(raw) {
      var fields := T.FieldsOf(raw);
      var items := T.ItemsFromAny(T.Field(fields, "items"));
      if items.Some? {
        T.NormalizeIntoNormalForm(T.TaskState(items.value, T.StringsFromAny(T.Field(fields, "expected_outputs")),
                                              T.StringsFromAny(T.Field(fields, "verified_outputs"))));
      }
    }
  }

  lemma StoredIsNormal(threads: map<string, Thread>, id: string)
    ensures T.NormalForm(StoredTaskState(threads, id))
  {
    hide T.ParseTaskState, T.NormalForm;
    ZeroIsNormal();
    ParsedIsNormal(MetaValue(LoadOrNew(threads, id), TaskStateKey));
  }

  lemma SetMetaAgain(threads: map<string, Thread>, id: string, key: MetaKey, value: T.Any)
    requires WellKeyed(threads) && Canonical(id) && id in threads && MetaOf(threads, id, key) == Some(value)
    ensures SetMeta(threads, id, key, value) == threads
  {
    hide TrimSpace;
    var t := threads[id];
    assert t.metadata[key := value] == t.metadata;
    assert threads[id := t] == threads;
  }

  lemma ClearMetaAgain(threads: map<string, Thread>, id: string, key: MetaKey)
    requires WellKeyed(threads) && Canonical(id) && MetaOf(threads, id, key) == None
    ensures ClearMeta(threads, id, key) == threads
  {
    hide TrimSpace;
    if id in threads {
      var t := threads[id];
      assert t.metadata - {key} == t.metadata;
      assert threads[id := t] == threads;
    }
  }

  /** What is stored is what will be loaded, and storing it again changes nothing. */
  lemma StoredStays(threads: map<string, Thread>, id: string, state: T.TaskState)
    requires WellKeyed(threads) && Canonical(id) && T.NormalForm(state)
    ensures var after := Stored(threads, id, state);
      WellKeyed(after) && StoredTaskState(after, id) == state && Stored(after, id, state) == after &&
        OthersKept(threads, after, id)
  {
    hide TrimSpace, SetMeta, ClearMeta, T.Value, O.LifecycleValue, T.NormalForm, MetaOf, StoredTaskState, LoadOrNew;
    var value := O.LifecycleValue(RunningLifecycle(state));
    var shown := SetMeta(threads, id, LifecycleKey, value);
    SetMetaWrites(threads, id, LifecycleKey, value);
    ClearMetaWrites(shown, id, TaskStateKey);
    SetMetaWrites(shown, id, TaskStateKey, T.Value(state));
    var after := Stored(threads, id, state);
    LoadsWhatWasStored(after, id, state);
    SetMetaAgain(after, id, LifecycleKey, value);
    if state.IsZero() {
      ClearMetaAgain(after, id, TaskStateKey);
    } else {
      SetMetaAgain(after, id, TaskStateKey, T.Value(state));
    }
  }

  /** Observing an event leaves a task state in normal form, touches no other thread, and
      observing the same event again changes nothing at all. */
  lemma ObserveIsIdempotent(threads: map<string, Thread>, id: string, e: TaskEvent)
    requires WellKeyed(threads) && Canonical(id)
    ensures var after := Observed(threads, id, e);
      && WellKeyed(after) && OthersKept(threads, after, id)
      && T.NormalForm(StoredTaskState(after, id))
      && Observed(after, id, e) == after
  {
    hide StatusFor, Upsert, Collapse, Stored, T.NormalForm, StoredTaskState, MetaOf, LoadOrNew;
    StoredIsNormal(threads, id);
    StoredIsNormal(Observed(threads, id, e), id);
    if StatusFor(e.kind).Some? {
      var status := StatusFor(e.kind).value;
      UpsertIsIdempotent(StoredTaskState(threads, id), Collapse(e.taskID), Collapse(e.description), status);
      StoredStays(threads, id, UpsertEvent(StoredTaskState(threads, id), e, status));
    }
  }

  /** The status a task shows after an event of this kind. */
  predicate Reports(kind: string, status: string) {
    var word := TrimSpace(kind);
    || (status == T.IN_PROGRESS && (word == "task_started" || word == "task_running"))
    || (status == T.COMPLETED && word == "task_completed")
    || (status == T.PENDING && (word == "task_failed" || word == "task_timed_out"))
  }

  /** A task that started or runs is shown in progress, a completed one completed and a failed one
      pending again, unless the update is refused; an event of another kind changes nothing. */
  lemma ObservedTaskShows(threads: map<string, Thread>, id: string, e: TaskEvent, status: string)
    requires WellKeyed(threads) && Canonical(id)
    ensures !Reports(e.kind, T.IN_PROGRESS) && !Reports(e.kind, T.COMPLETED) && !Reports(e.kind, T.PENDING) ==>
              Observed(threads, id, e) == threads
    ensures Reports(e.kind, status) ==>
      var before, after := StoredTaskState(threads, id), StoredTaskState(Observed(threads, id, e), id);
      var update := T.TaskItem(Collapse(e.taskID), Collapse(e.description), status);
      if Refused(before, update) then after == before
      else after == before.(items := UpsertItem(before.items, update)) && Shows(after.items, update)
  {
    hide Upsert, Collapse, Stored, T.NormalForm, StoredTaskState, MetaOf, LoadOrNew, T.NormalizeTaskStatus,
         UpsertItem, Shows, Refused, TrimSpace;
    if Reports(e.kind, status) {
      var state := StoredTaskState(threads, id);
      StoredIsNormal(threads, id);
      CollapseIdempotent(e.taskID);
      CollapseIdempotent(e.description);
      T.StatusesAreFixed(status);
      UpsertRefusesExactly(state, Collapse(e.taskID), Collapse(e.description), status);
      UpsertIsIdempotent(state, Collapse(e.taskID), Collapse(e.description), status);
      StoredStays(threads, id, UpsertEvent(state, e, status));
    }
  }

  /** While one task is in progress the start of another is dropped: the stored task state stays
      as it was. */
  lemma SecondStartIsDropped(threads: map<string, Thread>, id: string, e: TaskEvent, j: nat)
    requires WellKeyed(threads) && Canonical(id) && StatusFor(e.kind) == Some(T.IN_PROGRESS)
    requires var items := StoredTaskState(threads, id).items;
      var update := T.TaskItem(Collapse(Collapse(e.taskID)), Collapse(Collapse(e.description)),
                               T.NormalizeTaskStatus(T.IN_PROGRESS));
      j < |items| && items[j].status == T.IN_PROGRESS && TaskItemKey(items[j]) != TaskItemKey(update)
    ensures StoredTaskState(Observed(threads, id, e), id) == StoredTaskState(threads, id)
  {
    hide StatusFor, Upsert, Collapse, Stored, T.NormalForm, StoredTaskState, MetaOf, LoadOrNew, TaskItemKey,
         T.NormalizeTaskStatus, UpsertItem, Shows;
    var state := StoredTaskState(threads, id);
    StoredIsNormal(threads, id);
    var update := T.TaskItem(Collapse(Collapse(e.taskID)), Collapse(Collapse(e.description)),
                             T.NormalizeTaskStatus(T.IN_PROGRESS));
    T.StatusesAreFixed(T.IN_PROGRESS);
    UpsertRefusesExactly(state, Collapse(e.taskID), Collapse(e.description), T.IN_PROGRESS);
    assert !Targets(state.items, update, j);
    assert Refused(state, update);
    StoredStays(threads, id, state);
  }
}
